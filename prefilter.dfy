/** VCF pre-filter: decides, record by record, whether a call is kept for clustering and
    rewrites the kept ones in place to a single ALT and a homozygous genotype, filling in
    GT_CONF when it is missing. */
module PreFilter {
  import opened Wrappers
  import Strings
  import Numerals

  /** The fields of a VCF record the filter reads or rewrites. A FORMAT of None reads as
      the empty map: both fail the "GT in FORMAT" test the same way. */
  datatype Record = Record(filter: string, ref: string, alt: seq<string>,
                           format: map<string, string>, info: map<string, string>)

  /** What becomes of a record: skipped, written out, or the run fails. */
  datatype Verdict = Skip | Emit | Fail(msg: string)

  /** The verdict and the record as the filter leaves it; the filter rewrites in place, so a
      record skipped or failed after the rewrite has begun is already partly rewritten. */
  datatype Filtered = Filtered(verdict: Verdict, after: Record)

  /** All called alleles are the same (`len(set(genotypes)) == 1`). */
  predicate Homozygous(gs: seq<string>)
  {
    forall j :: 0 <= j < |gs| ==> gs[j] == gs[0]
  }

  /** `set(genotypes)`. */
  function CalledAlleles(gs: seq<string>): set<string>
  {
    set g | g in gs
  }

  /** The set test of the source and the sequence test of this model agree. */
  lemma CalledAllelesSingleton(gs: seq<string>)
    requires |gs| >= 1
    ensures |CalledAlleles(gs)| == 1 <==> Homozygous(gs)
    ensures Homozygous(gs) ==> (CalledAlleles(gs) == {"0"} <==> gs[0] == "0")
  {
    var called := CalledAlleles(gs);
    if Homozygous(gs) {
      assert called == {gs[0]};
    } else {
      var j :| 0 <= j < |gs| && gs[j] != gs[0];
      assert {gs[0], gs[j]} <= called;
      assert |{gs[0], gs[j]}| == 2;
      SubsetCardinality({gs[0], gs[j]}, called);
    }
  }

  lemma SubsetCardinality<T>(a: set<T>, b: set<T>)
    requires a <= b
    ensures |a| <= |b|
  {
    assert b == a + (b - a);
  }

  /** Python's `s[k]`: a negative index counts from the end; `None` is the `IndexError`. */
  function PyIndex<T>(s: seq<T>, k: int): (r: Option<T>)
    ensures r.Some? <==> -|s| <= k < |s|
    ensures 0 <= k < |s| ==> r == Some(s[k])
    ensures -|s| <= k < 0 ==> r == Some(s[|s| + k])
  {
    if 0 <= k < |s| then Some(s[k])
    else if -|s| <= k < 0 then Some(s[|s| + k])
    else None
  }

  /** `vcf_record.set_format_key_value(key, value)`. */
  function SetFormat(r: Record, key: string, value: string): Record
  {
    r.(format := r.format[key := value])
  }

  predicate IsPlaceholder(allele: string)
  {
    allele == "." || allele == ""
  }

  /** Lines 118-130: the tests that skip a record before anything is rewritten. */
  predicate SkippedUntouched(r: Record, discardRefCalls: bool)
  {
    || r.filter == "MISMAPPED_UNPLACEABLE"
    || "GT" !in r.format
    || IsPlaceholder(r.ref)
    || var gs := Strings.Split(r.format["GT"], '/');
       !Homozygous(gs) || (discardRefCalls && gs[0] == "0") || "." in gs
  }

  /** Lines 132-141: a record with several ALTs keeps the called ALT (GT becomes 1/1) or,
      for a ref call, the first ALT (GT becomes 0/0). The flag is the `Error` raised for an
      allele index that is no integer or out of range; GT is already rewritten then. */
  function CollapseAlts(r: Record, gs: seq<string>): (Record, bool)
    requires |gs| >= 1
  {
    if |r.alt| <= 1 then (r, false)
    else if gs[0] != "0" then
      var r1 := SetFormat(r, "GT", "1/1");
      match Numerals.ParseInt(gs[0])
      case None => (r1, true)
      case Some(n) =>
        match PyIndex(r.alt, n - 1)
        case None => (r1, true)
        case Some(a) => (r1.(alt := [a]), false)
    else (SetFormat(r, "GT", "0/0").(alt := [r.alt[0]]), false)
  }

  /** Lines 145-148: haploid 0 and 1 become 0/0 and 1/1. */
  function NormaliseGenotype(r: Record): Record
    requires "GT" in r.format
  {
    if r.format["GT"] == "0" then SetFormat(r, "GT", "0/0")
    else if r.format["GT"] == "1" then SetFormat(r, "GT", "1/1")
    else r
  }

  /** Lines 151-156: the text of the confidence the likelihoods give: GL[0] - GL[1] for a
      ref call, GL[g] - GL[0] for a call of allele g. */
  function LikelihoodConfidence(gl: string, gs: seq<string>): Result<string>
    requires |gs| >= 1
  {
    var ls := Strings.Split(gl, ',');
    if |ls| <= 2 then Err("AssertionError: len(likelihoods) > 2")
    else if gs[0] == "0" then
      match (Numerals.ParseDecimalTrunc(ls[0], 0), Numerals.ParseDecimalTrunc(ls[1], 0))
      case (Some(l0), Some(l1)) => Ok(Numerals.IntToString(l0 - l1))
      case _ => Err("could not convert string to float")
    else AltCallLikelihood(ls, gs[0])
  }

  /** Line 156: GL[g] - GL[0] for a call of allele g. */
  function AltCallLikelihood(ls: seq<string>, called: string): Result<string>
    requires |ls| > 0
  {
    match Numerals.ParseInt(called)
    case None => Err("invalid literal for int()")
    case Some(g) =>
      match PyIndex(ls, g)
      case None => Err("list index out of range")
      case Some(lg) =>
        match (Numerals.ParseDecimalTrunc(lg, 0), Numerals.ParseDecimalTrunc(ls[0], 0))
        case (Some(x), Some(l0)) => Ok(Numerals.IntToString(x - l0))
        case _ => Err("could not convert string to float")
  }

  /** Lines 150-156: GT_CONF from the genotype likelihoods when GT_CONF is absent. */
  function ConfidenceFromLikelihoods(r: Record, gs: seq<string>): Result<Record>
    requires |gs| >= 1
  {
    if "GL" in r.format && "GT_CONF" !in r.format then
      match LikelihoodConfidence(r.format["GL"], gs)
      case Err(e) => Err(e)
      case Ok(c) => Ok(SetFormat(r, "GT_CONF", c))
    else Ok(r)
  }

  /** Line 159: the text of SupportFraction * 100. */
  function SupportConfidence(supportFraction: string): Result<string>
  {
    match Numerals.ParseDecimalTrunc(supportFraction, 2)
    case None => Err("could not convert string to float")
    case Some(c) => Ok(Numerals.IntToString(c))
  }

  /** Lines 157-159: otherwise GT_CONF from SupportFraction * 100. */
  function ConfidenceFromSupport(r: Record): Result<Record>
  {
    if "SupportFraction" in r.info && "GT_CONF" !in r.format then
      match SupportConfidence(r.info["SupportFraction"])
      case Err(e) => Err(e)
      case Ok(c) => Ok(SetFormat(r, "GT_CONF", c))
    else Ok(r)
  }

  /** The decision and rewrite for one record (lines 118-160). */
  function FilterRecord(r: Record, discardRefCalls: bool): Filtered
  {
    if SkippedUntouched(r, discardRefCalls) then Filtered(Skip, r)
    else
      var gs := Strings.Split(r.format["GT"], '/');
      var (r1, bad) := CollapseAlts(r, gs);
      if bad then Filtered(Fail("BAD VCf line"), r1)
      else if |r1.alt| == 0 then Filtered(Fail("list index out of range"), r1)
      else if IsPlaceholder(r1.alt[0]) then Filtered(Skip, r1)
      else
        AddConfidence(NormaliseGenotype(r1), gs)
  }

  /** Lines 150-160: GT_CONF from the likelihoods, else from SupportFraction; the record is
      emitted when neither raises. */
  function AddConfidence(r2: Record, gs: seq<string>): Filtered
    requires |gs| >= 1
  {
    match ConfidenceFromLikelihoods(r2, gs)
    case Err(e) => Filtered(Fail(e), r2)
    case Ok(r3) =>
      match ConfidenceFromSupport(r3)
      case Err(e) => Filtered(Fail(e), r3)
      case Ok(r4) => Filtered(Emit, r4)
  }

  /** What every emitted record satisfies: placeable, a non-empty REF, exactly one ALT that is
      no placeholder, a homozygous non-missing GT that is never the haploid 0 or 1. */
  predicate Normalised(r: Record)
  {
    && r.filter != "MISMAPPED_UNPLACEABLE"
    && !IsPlaceholder(r.ref)
    && |r.alt| == 1 && !IsPlaceholder(r.alt[0])
    && "GT" in r.format
    && r.format["GT"] != "0" && r.format["GT"] != "1"
    && var gs := Strings.Split(r.format["GT"], '/');
       Homozygous(gs) && "." !in gs
  }

  lemma SplitDiploid(a: string)
    requires a == "0" || a == "1"
    ensures Strings.Split(a + "/" + a, '/') == [a, a]
  {
    var s := a + "/" + a;
    assert s[1..] == "/" + a;
    assert ("/" + a)[1..] == a;
    Strings.SplitWithoutSep(a, '/');
    assert Strings.Split("/" + a, '/') == [""] + [a];
  }

  /** Rewriting the genotype to 0/0 or 1/1 keeps its called allele. */
  lemma SplitRewritten(r: Record, a: string)
    requires a == "0" || a == "1"
    ensures var gs := Strings.Split(SetFormat(r, "GT", a + "/" + a).format["GT"], '/');
            Homozygous(gs) && "." !in gs && gs[0] == a
  {
    SplitDiploid(a);
  }

  /** Deriving a confidence touches GT_CONF only. */
  lemma ConfidenceKeepsRest(r: Record, gs: seq<string>)
    requires |gs| >= 1
    ensures ConfidenceFromLikelihoods(r, gs).Ok? ==>
              var r3 := ConfidenceFromLikelihoods(r, gs).value;
              && r3.(format := r.format) == r
              && r3.format.Keys <= r.format.Keys + {"GT_CONF"}
              && (forall k :: k in r.format && k != "GT_CONF" ==> k in r3.format && r3.format[k] == r.format[k])
              && ("GT_CONF" in r.format ==> r3 == r)
    ensures ConfidenceFromSupport(r).Ok? ==>
              var r4 := ConfidenceFromSupport(r).value;
              && r4.(format := r.format) == r
              && r4.format.Keys <= r.format.Keys + {"GT_CONF"}
              && (forall k :: k in r.format && k != "GT_CONF" ==> k in r4.format && r4.format[k] == r.format[k])
              && ("GT_CONF" in r.format ==> r4 == r)
  {
  }

  /** A record that passed the skip tests and the collapse is normalised once its genotype
      is; with `discardRefCalls` it is no ref call. */
  lemma CollapsedIsNormalised(r: Record, discardRefCalls: bool)
    requires !SkippedUntouched(r, discardRefCalls)
    requires var c := CollapseAlts(r, Strings.Split(r.format["GT"], '/'));
             !c.1 && |c.0.alt| > 0 && !IsPlaceholder(c.0.alt[0])
    ensures var r2 := NormaliseGenotype(CollapseAlts(r, Strings.Split(r.format["GT"], '/')).0);
            && Normalised(r2)
            && (discardRefCalls ==> Strings.Split(r2.format["GT"], '/')[0] != "0")
  {
    var gs := Strings.Split(r.format["GT"], '/');
    if |r.alt| > 1 {
      MultiAltNormalised(r, gs, discardRefCalls);
    } else {
      SingleAltNormalised(r, gs, discardRefCalls);
    }
  }

  lemma MultiAltNormalised(r: Record, gs: seq<string>, discardRefCalls: bool)
    requires !SkippedUntouched(r, discardRefCalls) && |r.alt| > 1
    requires gs == Strings.Split(r.format["GT"], '/')
    requires var c := CollapseAlts(r, gs); !c.1 && !IsPlaceholder(c.0.alt[0])
    ensures var r2 := NormaliseGenotype(CollapseAlts(r, gs).0);
            && Normalised(r2)
            && (discardRefCalls ==> Strings.Split(r2.format["GT"], '/')[0] != "0")
  {
    if gs[0] != "0" { SplitRewritten(r, "1"); } else { SplitRewritten(r, "0"); }
  }

  lemma SingleAltNormalised(r: Record, gs: seq<string>, discardRefCalls: bool)
    requires !SkippedUntouched(r, discardRefCalls) && |r.alt| == 1 && !IsPlaceholder(r.alt[0])
    requires gs == Strings.Split(r.format["GT"], '/')
    ensures var r2 := NormaliseGenotype(r);
            && Normalised(r2)
            && (discardRefCalls ==> Strings.Split(r2.format["GT"], '/')[0] != "0")
  {
    if r.format["GT"] == "0" {
      SplitWithoutSepSingle("0");
      SplitRewritten(r, "0");
    } else if r.format["GT"] == "1" {
      SplitWithoutSepSingle("1");
      SplitRewritten(r, "1");
    }
  }

  /** Every emitted record is normalised; with `discardRefCalls` it is never a ref call. */
  lemma EmittedIsNormalised(r: Record, discardRefCalls: bool)
    requires FilterRecord(r, discardRefCalls).verdict == Emit
    ensures Normalised(FilterRecord(r, discardRefCalls).after)
    ensures discardRefCalls ==>
              Strings.Split(FilterRecord(r, discardRefCalls).after.format["GT"], '/')[0] != "0"
  {
    EmitSteps(r, discardRefCalls);
    CollapsedIsNormalised(r, discardRefCalls);
    var gs := Strings.Split(r.format["GT"], '/');
    var r2 := NormaliseGenotype(CollapseAlts(r, gs).0);
    var r3 := ConfidenceFromLikelihoods(r2, gs).value;
    ConfidenceKeepsRest(r2, gs);
    ConfidenceKeepsRest(r3, gs);
    var a := FilterRecord(r, discardRefCalls).after;
    assert a.format["GT"] == r2.format["GT"] && a.alt == r2.alt;
  }

  lemma SplitWithoutSepSingle(a: string)
    requires a == "0" || a == "1"
    ensures Strings.Split(a, '/') == [a]
  {
    Strings.SplitWithoutSep(a, '/');
  }

  /** The source's skip tests, seen from an emitted record: it was placeable, had a GT, a
      real REF, and one called allele (`len(set(genotypes)) == 1`) that is not missing and,
      when ref calls are discarded, not the reference. */
  lemma EmitRequires(r: Record, discardRefCalls: bool)
    requires FilterRecord(r, discardRefCalls).verdict == Emit
    ensures r.filter != "MISMAPPED_UNPLACEABLE"
    ensures "GT" in r.format
    ensures !IsPlaceholder(r.ref)
    ensures var gs := Strings.Split(r.format["GT"], '/');
            && |CalledAlleles(gs)| == 1
            && "." !in CalledAlleles(gs)
            && !(discardRefCalls && CalledAlleles(gs) == {"0"})
  {
    var gs := Strings.Split(r.format["GT"], '/');
    CalledAllelesSingleton(gs);
  }

  /** Where the source's `int()` reads a plain digit string, so does `ParseInt`. */
  lemma ParseIntOfDigits(s: string, n: nat)
    requires Numerals.ParseNat(s) == Some(n)
    ensures Numerals.ParseInt(s) == Some(n)
  {
    assert Numerals.IsDigit(s[0]);
  }

  /** After a clean collapse the verdict only adds GT_CONF: ALT and the rest of FORMAT are
      those of the collapsed record, with its genotype normalised unless its ALT is a
      placeholder. */
  lemma AfterCollapse(r: Record, discardRefCalls: bool)
    requires !SkippedUntouched(r, discardRefCalls)
    requires var c := CollapseAlts(r, Strings.Split(r.format["GT"], '/'));
             !c.1 && |c.0.alt| > 0
    ensures var r1 := CollapseAlts(r, Strings.Split(r.format["GT"], '/')).0;
            var a := FilterRecord(r, discardRefCalls).after;
            && "GT" in r1.format && "GT" in a.format
            && a.alt == r1.alt
            && a.format["GT"] == (if IsPlaceholder(r1.alt[0]) then r1 else NormaliseGenotype(r1)).format["GT"]
            && ("GT_CONF" in r.format ==> "GT_CONF" in a.format && a.format["GT_CONF"] == r.format["GT_CONF"])
  {
    var gs := Strings.Split(r.format["GT"], '/');
    var r1 := CollapseAlts(r, gs).0;
    CollapseKeepsRest(r, gs);
    if !IsPlaceholder(r1.alt[0]) {
      AddConfidenceKeepsRest(NormaliseGenotype(r1), gs);
    }
  }

  /** Adding the confidence touches GT_CONF only, and never one already there. */
  lemma AddConfidenceKeepsRest(r2: Record, gs: seq<string>)
    requires |gs| >= 1
    ensures var a := AddConfidence(r2, gs).after;
            && a.(format := r2.format) == r2
            && (forall k :: k in r2.format && k != "GT_CONF" ==> k in a.format && a.format[k] == r2.format[k])
            && ("GT_CONF" in r2.format ==> a == r2)
  {
    ConfidenceKeepsRest(r2, gs);
    if ConfidenceFromLikelihoods(r2, gs).Ok? {
      ConfidenceKeepsRest(ConfidenceFromLikelihoods(r2, gs).value, gs);
    }
  }

  /** The collapse rewrites GT and ALT only. */
  lemma CollapseKeepsRest(r: Record, gs: seq<string>)
    requires |gs| >= 1 && "GT" in r.format
    ensures var r1 := CollapseAlts(r, gs).0;
            && r1.format.Keys == r.format.Keys && r1.info == r.info
            && (forall k :: k in r.format && k != "GT" ==> r1.format[k] == r.format[k])
  {
  }

  /** Multi-ALT alt call of allele n: the record keeps ALT[n-1] alone with GT 1/1, and an
      allele index past the ALTs fails with `Error`. */
  lemma AltCallCollapses(r: Record, discardRefCalls: bool, n: nat)
    requires !SkippedUntouched(r, discardRefCalls)
    requires |r.alt| > 1
    requires var gs := Strings.Split(r.format["GT"], '/');
             gs[0] != "0" && Numerals.ParseNat(gs[0]) == Some(n)
    ensures 1 <= n <= |r.alt| ==>
              && FilterRecord(r, discardRefCalls).after.alt == [r.alt[n - 1]]
              && FilterRecord(r, discardRefCalls).after.format["GT"] == "1/1"
    ensures n > |r.alt| ==> FilterRecord(r, discardRefCalls).verdict == Fail("BAD VCf line")
  {
    var gs := Strings.Split(r.format["GT"], '/');
    ParseIntOfDigits(gs[0], n);
    if 1 <= n <= |r.alt| {
      AfterCollapse(r, discardRefCalls);
    }
  }

  /** Multi-ALT ref call (kept only when ref calls are not discarded): the record keeps
      ALT[0] alone with GT 0/0. */
  lemma RefCallCollapses(r: Record, discardRefCalls: bool)
    requires !SkippedUntouched(r, discardRefCalls)
    requires |r.alt| > 1
    requires Strings.Split(r.format["GT"], '/')[0] == "0"
    ensures !discardRefCalls
    ensures FilterRecord(r, discardRefCalls).after.alt == [r.alt[0]]
    ensures FilterRecord(r, discardRefCalls).after.format["GT"] == "0/0"
  {
    AfterCollapse(r, discardRefCalls);
  }

  /** A single-ALT haploid call 0 or 1 becomes diploid 0/0 or 1/1. */
  lemma HaploidBecomesDiploid(r: Record, discardRefCalls: bool)
    requires !SkippedUntouched(r, discardRefCalls)
    requires |r.alt| == 1 && !IsPlaceholder(r.alt[0])
    requires r.format["GT"] == "0" || r.format["GT"] == "1"
    ensures FilterRecord(r, discardRefCalls).after.format["GT"] == r.format["GT"] + "/" + r.format["GT"]
    ensures FilterRecord(r, discardRefCalls).after.alt == r.alt
  {
    AfterCollapse(r, discardRefCalls);
  }

  /** An existing GT_CONF is never overwritten, whatever the verdict. */
  lemma ConfidenceNeverOverwritten(r: Record, discardRefCalls: bool)
    requires "GT_CONF" in r.format
    ensures "GT_CONF" in FilterRecord(r, discardRefCalls).after.format
    ensures FilterRecord(r, discardRefCalls).after.format["GT_CONF"] == r.format["GT_CONF"]
  {
    if !SkippedUntouched(r, discardRefCalls) {
      var gs := Strings.Split(r.format["GT"], '/');
      CollapseKeepsRest(r, gs);
      var c := CollapseAlts(r, gs);
      if !c.1 && |c.0.alt| > 0 {
        AfterCollapse(r, discardRefCalls);
      }
    }
  }

  /** The steps an emitted record went through, in the order of the source. */
  lemma EmitSteps(r: Record, discardRefCalls: bool)
    requires FilterRecord(r, discardRefCalls).verdict == Emit
    ensures "GT" in r.format && !SkippedUntouched(r, discardRefCalls)
    ensures var gs := Strings.Split(r.format["GT"], '/');
            var r1 := CollapseAlts(r, gs).0;
            var r2 := NormaliseGenotype(r1);
            && !CollapseAlts(r, gs).1 && |r1.alt| > 0 && !IsPlaceholder(r1.alt[0])
            && r2.format.Keys == r.format.Keys && r2.info == r.info
            && (forall k :: k in r.format && k != "GT" ==> r2.format[k] == r.format[k])
            && var r3 := ConfidenceFromLikelihoods(r2, gs);
               && r3.Ok? && ConfidenceFromSupport(r3.value).Ok?
               && FilterRecord(r, discardRefCalls).after == ConfidenceFromSupport(r3.value).value
  {
  }

  /** The likelihoods of a call of allele g give `GL[g] - GL[0]`. */
  lemma LikelihoodAltCall(gl: string, gs: seq<string>, g: nat, lg: int, l0: int)
    requires |gs| >= 1 && LikelihoodConfidence(gl, gs).Ok?
    requires var ls := Strings.Split(gl, ',');
             && gs[0] != "0" && Numerals.ParseNat(gs[0]) == Some(g) && g < |ls|
             && Numerals.ParseDecimalTrunc(ls[g], 0) == Some(lg)
             && Numerals.ParseDecimalTrunc(ls[0], 0) == Some(l0)
    ensures LikelihoodConfidence(gl, gs) == Ok(Numerals.IntToString(lg - l0))
  {
    AltCallLikelihoodOf(Strings.Split(gl, ','), gs[0], g, lg, l0);
  }

  /** Allele g's likelihood less the ref call's, when both read as numbers. */
  lemma AltCallLikelihoodOf(ls: seq<string>, called: string, g: nat, lg: int, l0: int)
    requires Numerals.ParseNat(called) == Some(g) && g < |ls|
    requires Numerals.ParseDecimalTrunc(ls[g], 0) == Some(lg)
    requires Numerals.ParseDecimalTrunc(ls[0], 0) == Some(l0)
    ensures AltCallLikelihood(ls, called) == Ok(Numerals.IntToString(lg - l0))
  {
    ParseIntOfDigits(called, g);
  }

  /** A missing GT_CONF comes first from the likelihoods: GL[g] - GL[0] for a call of
      allele g; SupportFraction is then not consulted. */
  lemma ConfidenceFromGlAltCall(r: Record, discardRefCalls: bool, g: nat, lg: int, l0: int)
    requires FilterRecord(r, discardRefCalls).verdict == Emit
    requires "GT_CONF" !in r.format && "GL" in r.format && "GT" in r.format
    requires var gs := Strings.Split(r.format["GT"], '/');
             var ls := Strings.Split(r.format["GL"], ',');
             && gs[0] != "0" && Numerals.ParseNat(gs[0]) == Some(g) && g < |ls|
             && Numerals.ParseDecimalTrunc(ls[g], 0) == Some(lg)
             && Numerals.ParseDecimalTrunc(ls[0], 0) == Some(l0)
    ensures var a := FilterRecord(r, discardRefCalls).after;
            "GT_CONF" in a.format && a.format["GT_CONF"] == Numerals.IntToString(lg - l0)
  {
    var gs := Strings.Split(r.format["GT"], '/');
    EmitSteps(r, discardRefCalls);
    var r2 := NormaliseGenotype(CollapseAlts(r, gs).0);
    assert r2.format["GL"] == r.format["GL"] && "GT_CONF" !in r2.format;
    LikelihoodAltCall(r.format["GL"], gs, g, lg, l0);
  }

  /** ... and GL[0] - GL[1] for a ref call. */
  lemma ConfidenceFromGlRefCall(r: Record, discardRefCalls: bool, l0: int, l1: int)
    requires FilterRecord(r, discardRefCalls).verdict == Emit
    requires "GT_CONF" !in r.format && "GL" in r.format && "GT" in r.format
    requires var gs := Strings.Split(r.format["GT"], '/');
             var ls := Strings.Split(r.format["GL"], ',');
             && gs[0] == "0" && |ls| > 2
             && Numerals.ParseDecimalTrunc(ls[0], 0) == Some(l0)
             && Numerals.ParseDecimalTrunc(ls[1], 0) == Some(l1)
    ensures var a := FilterRecord(r, discardRefCalls).after;
            "GT_CONF" in a.format && a.format["GT_CONF"] == Numerals.IntToString(l0 - l1)
  {
    var gs := Strings.Split(r.format["GT"], '/');
    EmitSteps(r, discardRefCalls);
    var r2 := NormaliseGenotype(CollapseAlts(r, gs).0);
    assert r2.format["GL"] == r.format["GL"] && "GT_CONF" !in r2.format;
    assert LikelihoodConfidence(r.format["GL"], gs) == Ok(Numerals.IntToString(l0 - l1));
  }

  /** Without GT_CONF and GL, the confidence is SupportFraction * 100 (truncated), and
      with none of the three it stays absent. */
  lemma ConfidenceFromSupportFraction(r: Record, discardRefCalls: bool)
    requires FilterRecord(r, discardRefCalls).verdict == Emit
    requires "GT_CONF" !in r.format && "GL" !in r.format
    ensures var a := FilterRecord(r, discardRefCalls).after;
            "SupportFraction" in r.info ==>
              && Numerals.ParseDecimalTrunc(r.info["SupportFraction"], 2).Some?
              && "GT_CONF" in a.format
              && a.format["GT_CONF"] == Numerals.IntToString(Numerals.ParseDecimalTrunc(r.info["SupportFraction"], 2).value)
    ensures "SupportFraction" !in r.info ==> "GT_CONF" !in FilterRecord(r, discardRefCalls).after.format
  {
    EmitSteps(r, discardRefCalls);
    var gs := Strings.Split(r.format["GT"], '/');
    var r2 := NormaliseGenotype(CollapseAlts(r, gs).0);
    assert "GL" !in r2.format && "GT_CONF" !in r2.format;
    assert ConfidenceFromLikelihoods(r2, gs) == Ok(r2);
  }

  /** The worked case: no GT_CONF, GL "-5,-1,-3" and GT 1/1 give GT_CONF -1 - (-5) = 4. */
  lemma ConfidenceExample()
    ensures var r := Record("PASS", "A", ["T"], map["GT" := "1/1", "GL" := "-5,-1,-3"], map[]);
            FilterRecord(r, true) == Filtered(Emit, SetFormat(r, "GT_CONF", "4"))
  {
    var r := Record("PASS", "A", ["T"], map["GT" := "1/1", "GL" := "-5,-1,-3"], map[]);
    ExampleSteps(r);
  }

  lemma ExampleSteps(r: Record)
    requires r == Record("PASS", "A", ["T"], map["GT" := "1/1", "GL" := "-5,-1,-3"], map[])
    ensures Strings.Split(r.format["GT"], '/') == ["1", "1"]
    ensures !SkippedUntouched(r, true)
    ensures CollapseAlts(r, ["1", "1"]) == (r, false)
    ensures NormaliseGenotype(r) == r
    ensures ConfidenceFromLikelihoods(r, ["1", "1"]) == Ok(SetFormat(r, "GT_CONF", "4"))
    ensures ConfidenceFromSupport(SetFormat(r, "GT_CONF", "4")) == Ok(SetFormat(r, "GT_CONF", "4"))
  {
    ExamplePasses(r);
    ExampleConfidence(r, r.format["GL"]);
  }

  lemma ExampleConfidence(r: Record, gl: string)
    requires "GL" in r.format && r.format["GL"] == gl && "GT_CONF" !in r.format
    requires gl == "-5,-1,-3"
    ensures ConfidenceFromLikelihoods(r, ["1", "1"]) == Ok(SetFormat(r, "GT_CONF", "4"))
  {
    ExampleLikelihoods(gl);
  }

  lemma ExamplePasses(r: Record)
    requires r == Record("PASS", "A", ["T"], map["GT" := "1/1", "GL" := "-5,-1,-3"], map[])
    ensures Strings.Split(r.format["GT"], '/') == ["1", "1"]
    ensures !SkippedUntouched(r, true)
  {
    var gs := Strings.Split(r.format["GT"], '/');
    assert gs == ["1", "1"] by {
      SplitDiploid("1");
      assert "1/1" == "1" + "/" + "1";
    }
    assert Homozygous(gs);
    assert "." !in gs;
    assert !IsPlaceholder(r.ref);
  }

  lemma ExampleLikelihoods(gl: string)
    requires gl == "-5,-1,-3"
    ensures LikelihoodConfidence(gl, ["1", "1"]) == Ok("4")
  {
    var ls := Strings.Split(gl, ',');
    assert ls == ["-5", "-1", "-3"] by { SplitGlExample(gl); }
    ExampleNumbers();
  }

  lemma ExampleNumbers()
    ensures Numerals.ParseInt("1") == Some(1)
    ensures Numerals.ParseDecimalTrunc("-1", 0) == Some(-1)
    ensures Numerals.ParseDecimalTrunc("-5", 0) == Some(-5)
    ensures Numerals.IntToString(4) == "4"
  {
    Numerals.DecimalTruncRoundTrip(-1);
    Numerals.DecimalTruncRoundTrip(-5);
  }

  lemma SplitGlExample(gl: string)
    requires gl == "-5,-1,-3"
    ensures Strings.Split(gl, ',') == ["-5", "-1", "-3"]
  {
    SplitGlTail("-1,-3");
    Strings.SplitAtFirst("-5", ',', "-1,-3");
    assert gl == "-5" + [','] + "-1,-3";
  }

  lemma SplitGlTail(t: string)
    requires t == "-1,-3"
    ensures Strings.Split(t, ',') == ["-1", "-3"]
  {
    Strings.SplitWithoutSep("-3", ',');
    Strings.SplitAtFirst("-1", ',', "-3");
    assert t == "-1" + [','] + "-3";
  }

  /** An emitted record that had a source for GT_CONF has GT_CONF; the rest of FORMAT
      (GL in particular) and INFO are as they were. */
  lemma EmittedConfidence(r: Record, discardRefCalls: bool)
    requires FilterRecord(r, discardRefCalls).verdict == Emit
    ensures var a := FilterRecord(r, discardRefCalls).after;
            && a.info == r.info
            && ("GL" in a.format <==> "GL" in r.format)
            && (("GL" in r.format || "SupportFraction" in r.info) ==> "GT_CONF" in a.format)
  {
    EmitSteps(r, discardRefCalls);
    var gs := Strings.Split(r.format["GT"], '/');
    var r2 := NormaliseGenotype(CollapseAlts(r, gs).0);
    ConfidenceKeepsRest(r2, gs);
    ConfidenceKeepsRest(ConfidenceFromLikelihoods(r2, gs).value, gs);
  }

  /** Filtering is idempotent: an emitted record passes the filter again unchanged. */
  lemma FilterIdempotent(r: Record, discardRefCalls: bool)
    requires FilterRecord(r, discardRefCalls).verdict == Emit
    ensures var a := FilterRecord(r, discardRefCalls).after;
            FilterRecord(a, discardRefCalls) == Filtered(Emit, a)
  {
    var a := FilterRecord(r, discardRefCalls).after;
    EmittedIsNormalised(r, discardRefCalls);
    EmittedConfidence(r, discardRefCalls);
    var gs := Strings.Split(a.format["GT"], '/');
    assert !SkippedUntouched(a, discardRefCalls);
    assert CollapseAlts(a, gs) == (a, false);
    assert NormaliseGenotype(a) == a;
    assert ConfidenceFromLikelihoods(a, gs) == Ok(a);
    assert ConfidenceFromSupport(a) == Ok(a);
  }

  /** A VCF record whose fields the filter rewrites in place. */
  class VcfRecord {
    var filter: string
    var ref: string
    var alt: seq<string>
    var format: map<string, string>
    var info: map<string, string>

    function Value(): Record
      reads this
    {
      Record(filter, ref, alt, format, info)
    }

    constructor (r: Record)
      ensures Value() == r
    {
      filter, ref, alt, format, info := r.filter, r.ref, r.alt, r.format, r.info;
    }

    /** `set_format_key_value`: adds or replaces one FORMAT entry. */
    method SetFormatKeyValue(key: string, value: string)
      modifies this
      ensures Value() == SetFormat(old(Value()), key, value)
    {
      format := format[key := value];
    }

    /** One pass of the filter's loop body (lines 118-160): the verdict on this record,
        which is left rewritten as `FilterRecord` says. */
    method FilterForClustering(discardRefCalls: bool) returns (verdict: Verdict)
      modifies this
      ensures verdict == FilterRecord(old(Value()), discardRefCalls).verdict
      ensures Value() == FilterRecord(old(Value()), discardRefCalls).after
    {
      ghost var r0 := Value();
      if filter == "MISMAPPED_UNPLACEABLE" || "GT" !in format || ref == "." || ref == "" {
        return Skip;
      }
      var genotypes := Strings.Split(format["GT"], '/');
      if !Homozygous(genotypes) || (discardRefCalls && genotypes[0] == "0") || "." in genotypes {
        return Skip;
      }
      assert !SkippedUntouched(r0, discardRefCalls);
      var bad := CollapseAltsInPlace(genotypes);
      if bad {
        return Fail("BAD VCf line");
      }
      if |alt| == 0 {
        return Fail("list index out of range");
      }
      if alt[0] == "." || alt[0] == "" {
        return Skip;
      }
      if format["GT"] == "0" {
        format := format["GT" := "0/0"];
      } else if format["GT"] == "1" {
        format := format["GT" := "1/1"];
      }
      verdict := AddConfidenceInPlace(genotypes);
    }

    /** Lines 132-141. */
    method CollapseAltsInPlace(genotypes: seq<string>) returns (bad: bool)
      requires |genotypes| >= 1
      modifies this
      ensures (Value(), bad) == CollapseAlts(old(Value()), genotypes)
    {
      bad := false;
      if |alt| > 1 {
        if genotypes[0] != "0" {
          SetFormatKeyValue("GT", "1/1");
          var called := Numerals.ParseInt(genotypes[0]);
          if called.None? {
            return true;
          }
          var chosen := PyIndex(alt, called.value - 1);
          if chosen.None? {
            return true;
          }
          alt := [chosen.value];
        } else {
          SetFormatKeyValue("GT", "0/0");
          alt := [alt[0]];
        }
      }
    }

    /** Lines 150-160. */
    method AddConfidenceInPlace(genotypes: seq<string>) returns (verdict: Verdict)
      requires |genotypes| >= 1
      modifies this
      ensures AddConfidence(old(Value()), genotypes) == Filtered(verdict, Value())
    {
      verdict := AddConfidenceFromLikelihoods(genotypes);
      if verdict.Fail? {
        return;
      }
      verdict := AddConfidenceFromSupport();
    }

    /** Lines 150-156. */
    method AddConfidenceFromLikelihoods(genotypes: seq<string>) returns (verdict: Verdict)
      requires |genotypes| >= 1
      modifies this
      ensures verdict == Emit || verdict.Fail?
      ensures ConfidenceFromLikelihoods(old(Value()), genotypes)
              == (if verdict.Fail? then Err(verdict.msg) else Ok(Value()))
      ensures verdict.Fail? ==> Value() == old(Value())
    {
      verdict := Emit;
      if "GL" in format && "GT_CONF" !in format {
        var c := ReadLikelihoods(format["GL"], genotypes);
        if c.Err? {
          return Fail(c.msg);
        }
        SetFormatKeyValue("GT_CONF", c.value);
      }
    }

    /** Lines 151-156: the likelihoods split and read, the confidence as text. */
    static method ReadLikelihoods(gl: string, genotypes: seq<string>) returns (c: Result<string>)
      requires |genotypes| >= 1
      ensures c == LikelihoodConfidence(gl, genotypes)
    {
      var likelihoods := Strings.Split(gl, ',');
      if |likelihoods| <= 2 {
        return Err("AssertionError: len(likelihoods) > 2");
      }
      if genotypes[0] == "0" {
        var l0 := Numerals.ParseDecimalTrunc(likelihoods[0], 0);
        var l1 := Numerals.ParseDecimalTrunc(likelihoods[1], 0);
        if l0.None? || l1.None? {
          return Err("could not convert string to float");
        }
        return Ok(Numerals.IntToString(l0.value - l1.value));
      }
      var g := Numerals.ParseInt(genotypes[0]);
      if g.None? {
        return Err("invalid literal for int()");
      }
      var lg := PyIndex(likelihoods, g.value);
      if lg.None? {
        return Err("list index out of range");
      }
      var x := Numerals.ParseDecimalTrunc(lg.value, 0);
      var l0 := Numerals.ParseDecimalTrunc(likelihoods[0], 0);
      if x.None? || l0.None? {
        return Err("could not convert string to float");
      }
      return Ok(Numerals.IntToString(x.value - l0.value));
    }

    /** Lines 157-159. */
    method AddConfidenceFromSupport() returns (verdict: Verdict)
      modifies this
      ensures verdict == Emit || verdict.Fail?
      ensures ConfidenceFromSupport(old(Value()))
              == (if verdict.Fail? then Err(verdict.msg) else Ok(Value()))
      ensures verdict.Fail? ==> Value() == old(Value())
    {
      verdict := Emit;
      if "SupportFraction" in info && "GT_CONF" !in format {
        var c := Numerals.ParseDecimalTrunc(info["SupportFraction"], 2);
        if c.None? {
          return Fail("could not convert string to float");
        }
        SetFormatKeyValue("GT_CONF", Numerals.IntToString(c.value));
      }
    }
  }

  /** The records the filter writes out, in input order, or the first failure. */
  function FilterAll(records: seq<Record>, discardRefCalls: bool): Result<seq<Record>>
  {
    if |records| == 0 then Ok([])
    else
      match FilterAll(records[..|records| - 1], discardRefCalls)
      case Err(e) => Err(e)
      case Ok(out) =>
        var f := FilterRecord(records[|records| - 1], discardRefCalls);
        match f.verdict
        case Fail(e) => Err(e)
        case Skip => Ok(out)
        case Emit => Ok(out + [f.after])
  }

  /** A failure stops the whole filter: nothing after it changes the outcome. */
  lemma {:induction false} FilterAllFailureSticks(records: seq<Record>, k: nat, discardRefCalls: bool)
    requires k <= |records|
    requires FilterAll(records[..k], discardRefCalls).Err?
    ensures FilterAll(records, discardRefCalls) == FilterAll(records[..k], discardRefCalls)
  {
    if k < |records| {
      var init := records[..|records| - 1];
      assert init[..k] == records[..k];
      FilterAllFailureSticks(init, k, discardRefCalls);
    } else {
      assert records[..k] == records;
    }
  }

  /** One more record: its failure ends the run, a skip adds nothing, an emit adds it. */
  lemma FilterAllStep(records: seq<Record>, k: nat, discardRefCalls: bool)
    requires k < |records|
    requires FilterAll(records[..k], discardRefCalls).Ok?
    ensures var out := FilterAll(records[..k], discardRefCalls).value;
            var f := FilterRecord(records[k], discardRefCalls);
            FilterAll(records[..k + 1], discardRefCalls)
            == if f.verdict.Fail? then Err(f.verdict.msg)
               else if f.verdict == Skip then Ok(out)
               else Ok(out + [f.after])
  {
    assert records[..k + 1][..k] == records[..k];
  }

  /** Lines 116-160 over the records of all references, joined in the order
      `vcf_file_to_dict` gives them: each is wrapped in a `VcfRecord`, filtered
      in place, and written out when kept; the first `Error` aborts. */
  method FilterVcfForClustering(records: seq<Record>, discardRefCalls: bool) returns (r: Result<seq<Record>>)
    ensures r == FilterAll(records, discardRefCalls)
  {
    var out: seq<Record> := [];
    for k := 0 to |records|
      invariant FilterAll(records[..k], discardRefCalls) == Ok(out)
    {
      FilterAllStep(records, k, discardRefCalls);
      var record := new VcfRecord(records[k]);
      var verdict := record.FilterForClustering(discardRefCalls);
      if verdict.Fail? {
        FilterAllFailureSticks(records, k + 1, discardRefCalls);
        return Err(verdict.msg);
      }
      if verdict == Emit {
        out := out + [record.Value()];
      }
    }
    assert records[..|records|] == records;
    return Ok(out);
  }

  /** Everything the filter writes is normalised, and it writes at most one record per input. */
  lemma {:induction false} FilterAllNormalised(records: seq<Record>, discardRefCalls: bool)
    requires FilterAll(records, discardRefCalls).Ok?
    ensures |FilterAll(records, discardRefCalls).value| <= |records|
    ensures forall o :: o in FilterAll(records, discardRefCalls).value ==> Normalised(o)
  {
    if |records| > 0 {
      var last := records[|records| - 1];
      FilterAllNormalised(records[..|records| - 1], discardRefCalls);
      if FilterRecord(last, discardRefCalls).verdict == Emit {
        EmittedIsNormalised(last, discardRefCalls);
      }
    }
  }

  /** Re-running the filter on its own output yields the same records. */
  lemma {:induction false} FilterAllIdempotent(records: seq<Record>, discardRefCalls: bool)
    requires FilterAll(records, discardRefCalls).Ok?
    ensures FilterAll(FilterAll(records, discardRefCalls).value, discardRefCalls)
            == FilterAll(records, discardRefCalls)
  {
    if |records| > 0 {
      var init := records[..|records| - 1];
      var last := records[|records| - 1];
      FilterAllIdempotent(init, discardRefCalls);
      var out := FilterAll(init, discardRefCalls).value;
      var f := FilterRecord(last, discardRefCalls);
      if f.verdict == Emit {
        FilterIdempotent(last, discardRefCalls);
        assert (out + [f.after])[..|out|] == out;
      }
    }
  }
}
