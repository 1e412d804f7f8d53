/** Match judge: decides from one alignment record whether a flanked variant sequence
    (the query) really matches the fragment it mapped to (the reference). */
module Judge {
  import opened Wrappers

  /** A cigar operation: its code (0 match, 4 soft clip, ...) and its length. */
  datatype CigarOp = CigarOp(op: nat, len: nat)

  /** One entry of `get_aligned_pairs()`: a query position and a reference position, either
      absent (a deletion has no query position, an insertion or clip no reference one). */
  datatype AlignedPair = AlignedPair(query: Option<nat>, ref: Option<nat>)

  /** The fields of an alignment record the judge and the aggregator read. */
  datatype AlignmentRecord = AlignmentRecord(
    queryName: string,
    referenceName: string,
    isUnmapped: bool,
    cigar: seq<CigarOp>,
    nm: Option<int>,
    queryAlignmentStart: int,
    alignedPairs: seq<AlignedPair>,
    querySequence: Option<string>)

  const SoftClip: nat := 4
  const MaxSoftClip: nat := 3

  /** Lines 215-216: a leading or trailing soft clip longer than 3 bases. */
  predicate SoftClipTooLong(cigar: seq<CigarOp>)
    requires |cigar| > 0
  {
    (cigar[0].op == SoftClip && cigar[0].len > MaxSoftClip)
    || (cigar[|cigar| - 1].op == SoftClip && cigar[|cigar| - 1].len > MaxSoftClip)
  }

  /** The length of the leading soft clip, which is where the aligned part of the query
      starts (`query_alignment_start`); the aligner is run with `-Y`, so a clip is never
      hard and the cigar's first operation is the clip itself. */
  function LeadingSoftClip(cigar: seq<CigarOp>): nat
  {
    if |cigar| > 0 && cigar[0].op == SoftClip then cigar[0].len else 0
  }

  /** The query positions expected to hold the variant (both ends included). */
  datatype Window = Window(start: int, end: int)

  /** Lines 226-239: nominally `[L, |q| - L - 1]`; a query shorter than 2L+1 was truncated
      at one end of its sequence, and the alignment start tells which: a start below 5 means
      the left flank was cut short, so the variant sits at the right flank's boundary. */
  function VariantWindow(queryLength: nat, flankLength: nat, alignmentStart: int): (w: Window)
    ensures w.start <= w.end
    ensures queryLength >= 2 * flankLength + 1 ==> w == Window(flankLength, queryLength - flankLength - 1)
    ensures queryLength < 2 * flankLength + 1 ==> w.start == w.end
    ensures queryLength < 2 * flankLength + 1 && alignmentStart < 5 ==> w.start == queryLength - flankLength - 1
    ensures queryLength < 2 * flankLength + 1 && alignmentStart >= 5 ==> w.start == flankLength
  {
    if queryLength < 2 * flankLength + 1 then
      var lengthDiff := 2 * flankLength - queryLength;
      if alignmentStart < 5 then
        var altEnd := queryLength - flankLength - 1;
        Window(Min(altEnd, flankLength - lengthDiff), altEnd)
      else
        var altStart := flankLength;
        Window(altStart, Max(altStart, lengthDiff + queryLength - flankLength - 1))
    else
      Window(flankLength, queryLength - flankLength - 1)
  }

  /** Lines 215-216 and 231: an alignment that reaches the window has a leading soft clip
      of at most three bases, so its alignment starts below 5 and a short query is always
      taken to be cut at the start of its sequence; the other branch (lines 234-236) is
      never taken. */
  lemma ReachedWindowTakesLeftCut(rec: AlignmentRecord, queryLength: nat, flankLength: nat)
    requires |rec.cigar| > 0 && !SoftClipTooLong(rec.cigar)
    requires rec.queryAlignmentStart == LeadingSoftClip(rec.cigar)
    ensures 0 <= rec.queryAlignmentStart <= MaxSoftClip
    ensures queryLength < 2 * flankLength + 1 ==>
              VariantWindow(queryLength, flankLength, rec.queryAlignmentStart).start == queryLength - flankLength - 1
  {
  }

  /** The value of `current_pos` once the scan has passed `ps`: the last query position
      among them, 0 when none has one. */
  function LastPos(ps: seq<AlignedPair>): nat
  {
    if |ps| == 0 then 0
    else match ps[|ps| - 1].query
      case Some(q) => q
      case None => LastPos(ps[..|ps| - 1])
  }

  /** The scan stops at pair `i`, before taking it, when the pair has a query position and
      the position already reached lies past the window's end (lines 250-251). */
  predicate StopsAt(ps: seq<AlignedPair>, i: nat, altEnd: int)
    requires i < |ps|
  {
    ps[i].query.Some? && LastPos(ps[..i]) > altEnd
  }

  /** The first index in `[i, m)` at which the scan stops, or `m`. */
  function FirstStop(ps: seq<AlignedPair>, altEnd: int, m: nat, i: nat): (s: nat)
    requires i <= m <= |ps|
    ensures i <= s <= m
    ensures s < m ==> StopsAt(ps, s, altEnd)
    ensures forall k :: i <= k < s ==> !StopsAt(ps, k, altEnd)
    decreases m - i
  {
    if i == m then m
    else if StopsAt(ps, i, altEnd) then i
    else FirstStop(ps, altEnd, m, i + 1)
  }

  /** The pairs the scan collects from `ps`: those whose position, their own query position
      or, for a deletion, the one reached before it, lies in `[lo, hi]`. */
  function Wanted(ps: seq<AlignedPair>, lo: int, hi: int): seq<AlignedPair>
  {
    if |ps| == 0 then []
    else Wanted(ps[..|ps| - 1], lo, hi) + (if lo <= LastPos(ps) <= hi then [ps[|ps| - 1]] else [])
  }

  /** Lines 241-257: the pairs collected for the window, or `None` for the `IndexError` of a
      pair list that runs out before the query does without the scan stopping. */
  function Collected(ps: seq<AlignedPair>, queryLength: nat, w: Window): Option<seq<AlignedPair>>
  {
    var m := Min(queryLength, |ps|);
    var s := FirstStop(ps, w.end, m, 0);
    if s == m && m < queryLength then None
    else Some(Wanted(ps[..s], w.start - 1, w.end + 1))
  }

  /** A pair both of whose sides are aligned, in range and carrying the same base. */
  predicate PairMatches(p: AlignedPair, query: string, ref: string)
  {
    && p.query.Some? && p.ref.Some?
    && p.query.value < |query| && p.ref.value < |ref|
    && query[p.query.value] == ref[p.ref.value]
  }

  /** Lines 261-265: the first pair with a gap or a mismatch rejects, an index past either
      sequence raises `IndexError`. */
  function CheckPairs(ws: seq<AlignedPair>, query: string, ref: string): Result<bool>
  {
    if |ws| == 0 then Ok(true)
    else
      var p := ws[0];
      if p.query.None? || p.ref.None? then Ok(false)
      else if p.query.value >= |query| || p.ref.value >= |ref| then Err("string index out of range")
      else if query[p.query.value] != ref[p.ref.value] then Ok(false)
      else CheckPairs(ws[1..], query, ref)
  }

  /** The verdict of `_check_if_sam_match_is_good` (lines 201-265), `Err` for what it raises. */
  function JudgeMatch(rec: AlignmentRecord, refSeqs: map<string, string>, flankLength: nat,
                      allowMismatches: bool): Result<bool>
  {
    if rec.isUnmapped then Ok(false)
    else if !allowMismatches then
      match rec.nm
      case None => Err("No NM tag found in sam record")
      case Some(nm) => Ok(|rec.cigar| == 1 && rec.cigar[0].op == 0 && nm == 0)
    else if |rec.cigar| == 0 then Err("list index out of range")
    else if SoftClipTooLong(rec.cigar) then Ok(false)
    else if rec.querySequence.None? then Err("AssertionError: query_sequence is not None")
    else if rec.referenceName !in refSeqs then Err("AssertionError: reference_name in ref_seqs")
    else JudgeAroundVariant(rec.alignedPairs, rec.querySequence.value, refSeqs[rec.referenceName],
                            flankLength, rec.queryAlignmentStart)
  }

  /** Lines 226-265: the pairs around the variant's window, then their check. */
  function JudgeAroundVariant(alignedPairs: seq<AlignedPair>, q: string, refSeq: string,
                              flankLength: nat, queryAlignmentStart: int): Result<bool>
  {
    var w := VariantWindow(|q|, flankLength, queryAlignmentStart);
    match Collected(alignedPairs, |q|, w)
    case None => Err("list index out of range")
    case Some(ws) =>
      if |ws| == 0 then Err("AssertionError: len(wanted_aligned_pairs) > 0")
      else CheckPairs(ws, q, refSeq)
  }

  /** `_check_if_sam_match_is_good`: the scan and the check written as the source's loops. */
  method CheckIfSamMatchIsGood(rec: AlignmentRecord, refSeqs: map<string, string>, flankLength: nat,
                               allowMismatches: bool) returns (r: Result<bool>)
    ensures r == JudgeMatch(rec, refSeqs, flankLength, allowMismatches)
  {
    if rec.isUnmapped {
      return Ok(false);
    }
    if !allowMismatches {
      if rec.nm.None? {
        return Err("No NM tag found in sam record");
      }
      var allMapped := |rec.cigar| == 1 && rec.cigar[0].op == 0;
      return Ok(allMapped && rec.nm.value == 0);
    }
    var cigar := rec.cigar;
    if |cigar| == 0 {
      return Err("list index out of range");
    }
    if (cigar[0].op == 4 && cigar[0].len > 3) || (cigar[|cigar| - 1].op == 4 && cigar[|cigar| - 1].len > 3) {
      return Ok(false);
    }
    if rec.querySequence.None? {
      return Err("AssertionError: query_sequence is not None");
    }
    if rec.referenceName !in refSeqs {
      return Err("AssertionError: reference_name in ref_seqs");
    }
    r := CheckAroundVariant(rec.alignedPairs, rec.querySequence.value, refSeqs[rec.referenceName],
                            flankLength, rec.queryAlignmentStart);
  }

  /** Lines 226-265: the window, the scan of the aligned pairs and the check of the pairs
      it collected. */
  method CheckAroundVariant(alignedPairs: seq<AlignedPair>, querySequence: string, refSeq: string,
                            flankLength: nat, queryAlignmentStart: int) returns (r: Result<bool>)
    ensures r == JudgeAroundVariant(alignedPairs, querySequence, refSeq, flankLength, queryAlignmentStart)
  {
    var altSeqStart, altSeqEnd;
    if |querySequence| < 2 * flankLength + 1 {
      var lengthDiff := 2 * flankLength - |querySequence|;
      if queryAlignmentStart < 5 {
        altSeqEnd := |querySequence| - flankLength - 1;
        altSeqStart := Min(altSeqEnd, flankLength - lengthDiff);
      } else {
        altSeqStart := flankLength;
        altSeqEnd := Max(altSeqStart, lengthDiff + |querySequence| - flankLength - 1);
      }
    } else {
      altSeqStart := flankLength;
      altSeqEnd := |querySequence| - flankLength - 1;
    }
    assert VariantWindow(|querySequence|, flankLength, queryAlignmentStart) == Window(altSeqStart, altSeqEnd);

    var collected := ScanAlignedPairs(alignedPairs, |querySequence|, altSeqStart, altSeqEnd);
    if collected.None? {
      return Err("list index out of range");
    }
    var wantedAlignedPairs := collected.value;
    if |wantedAlignedPairs| == 0 {
      return Err("AssertionError: len(wanted_aligned_pairs) > 0");
    }
    r := CheckWantedPairs(wantedAlignedPairs, querySequence, refSeq);
  }

  /** Lines 241-257: the `while i < len(query_sequence)` scan that follows `current_pos`
      and collects the pairs around the window. */
  method ScanAlignedPairs(alignedPairs: seq<AlignedPair>, queryLength: nat, altSeqStart: int, altSeqEnd: int)
    returns (r: Option<seq<AlignedPair>>)
    ensures r == Collected(alignedPairs, queryLength, Window(altSeqStart, altSeqEnd))
  {
    var wantedAlignedPairs: seq<AlignedPair> := [];
    var currentPos := 0;
    var i := 0;
    while i < queryLength
      invariant i <= queryLength && i <= |alignedPairs|
      invariant currentPos == LastPos(alignedPairs[..i])
      invariant wantedAlignedPairs == Wanted(alignedPairs[..i], altSeqStart - 1, altSeqEnd + 1)
      invariant forall k :: 0 <= k < i ==> !StopsAt(alignedPairs, k, altSeqEnd)
    {
      if i >= |alignedPairs| {
        assert FirstStop(alignedPairs, altSeqEnd, |alignedPairs|, 0) == |alignedPairs|;
        return None;
      }
      var pair := alignedPairs[i];
      assert alignedPairs[..i + 1][..i] == alignedPairs[..i];
      if pair.query.None? {
        if altSeqStart - 1 <= currentPos <= altSeqEnd + 1 {
          wantedAlignedPairs := wantedAlignedPairs + [pair];
        }
      } else if currentPos > altSeqEnd {
        assert StopsAt(alignedPairs, i, altSeqEnd);
        break;
      } else {
        currentPos := pair.query.value;
        if altSeqStart - 1 <= currentPos <= altSeqEnd + 1 {
          wantedAlignedPairs := wantedAlignedPairs + [pair];
        }
      }
      i := i + 1;
    }
    assert FirstStop(alignedPairs, altSeqEnd, Min(queryLength, |alignedPairs|), 0) == i;
    return Some(wantedAlignedPairs);
  }

  /** Lines 261-265: `for pair in wanted_aligned_pairs`. */
  method CheckWantedPairs(wantedAlignedPairs: seq<AlignedPair>, querySequence: string, refSeq: string)
    returns (r: Result<bool>)
    ensures r == CheckPairs(wantedAlignedPairs, querySequence, refSeq)
  {
    var j := 0;
    while j < |wantedAlignedPairs|
      invariant j <= |wantedAlignedPairs|
      invariant CheckPairs(wantedAlignedPairs, querySequence, refSeq)
                == CheckPairs(wantedAlignedPairs[j..], querySequence, refSeq)
    {
      var pair := wantedAlignedPairs[j];
      if pair.query.None? || pair.ref.None? {
        return Ok(false);
      }
      if pair.query.value >= |querySequence| || pair.ref.value >= |refSeq| {
        return Err("string index out of range");
      }
      if querySequence[pair.query.value] != refSeq[pair.ref.value] {
        return Ok(false);
      }
      assert wantedAlignedPairs[j..][1..] == wantedAlignedPairs[j + 1..];
      j := j + 1;
    }
    return Ok(true);
  }

  /** The judge never accepts an unmapped record. In strict mode it needs the NM tag, and
      accepts exactly a single match operation with no mismatch. */
  lemma StrictMode(rec: AlignmentRecord, refSeqs: map<string, string>, flankLength: nat)
    ensures rec.isUnmapped ==> JudgeMatch(rec, refSeqs, flankLength, false) == Ok(false)
    ensures !rec.isUnmapped && rec.nm.None? ==> JudgeMatch(rec, refSeqs, flankLength, false).Err?
    ensures JudgeMatch(rec, refSeqs, flankLength, false) == Ok(true)
            <==> !rec.isUnmapped && |rec.cigar| == 1 && rec.cigar[0].op == 0 && rec.nm == Some(0)
  {
  }

  /** In tolerant mode a soft clip of more than 3 bases at either end rejects, whatever the
      bases, the pairs or the reference. */
  lemma SoftClipRejects(rec: AlignmentRecord, refSeqs: map<string, string>, flankLength: nat)
    requires !rec.isUnmapped && |rec.cigar| > 0
    requires (rec.cigar[0].op == 4 && rec.cigar[0].len > 3)
             || (rec.cigar[|rec.cigar| - 1].op == 4 && rec.cigar[|rec.cigar| - 1].len > 3)
    ensures JudgeMatch(rec, refSeqs, flankLength, true) == Ok(false)
  {
  }

  /** The check accepts exactly when every collected pair is aligned on both sides, in
      range and equal; it rejects only for a gap or a mismatch. */
  lemma {:induction false} CheckPairsMeaning(ws: seq<AlignedPair>, query: string, ref: string)
    ensures CheckPairs(ws, query, ref) == Ok(true) <==> forall p :: p in ws ==> PairMatches(p, query, ref)
    ensures CheckPairs(ws, query, ref) == Ok(false) ==>
              exists p :: p in ws && (p.query.None? || p.ref.None? ||
                (p.query.value < |query| && p.ref.value < |ref| && query[p.query.value] != ref[p.ref.value]))
  {
    if |ws| > 0 {
      CheckPairsMeaning(ws[1..], query, ref);
      assert forall p :: p in ws <==> p == ws[0] || p in ws[1..];
      if !PairMatches(ws[0], query, ref) {
        assert CheckPairs(ws, query, ref) != Ok(true);
      } else {
        assert CheckPairs(ws, query, ref) == CheckPairs(ws[1..], query, ref);
      }
    }
  }

  /** The collected pairs are exactly the pairs whose position lies in `[lo, hi]`, in order. */
  lemma {:induction false} WantedMembers(ps: seq<AlignedPair>, lo: int, hi: int)
    ensures forall p :: p in Wanted(ps, lo, hi) <==>
              exists j :: 0 <= j < |ps| && ps[j] == p && lo <= LastPos(ps[..j + 1]) <= hi
    ensures |Wanted(ps, lo, hi)| <= |ps|
  {
    if |ps| > 0 {
      var init := ps[..|ps| - 1];
      WantedMembers(init, lo, hi);
      forall j | 0 < j <= |init| ensures init[..j] == ps[..j] { }
      assert ps[..|ps|] == ps;
    }
  }

  /** A pair with a query position has that position as its own. */
  lemma LastPosOfQueryPair(ps: seq<AlignedPair>, j: nat)
    requires j < |ps| && ps[j].query.Some?
    ensures LastPos(ps[..j + 1]) == ps[j].query.value
  {
    assert ps[..j + 1][j] == ps[j];
  }

  /** What an acceptance in tolerant mode guarantees: the record is mapped without a long
      soft clip, at least one pair was collected, and every collected pair lies in the
      window widened by one base and matches its reference base. */
  lemma TolerantAccepts(rec: AlignmentRecord, refSeqs: map<string, string>, flankLength: nat)
    requires JudgeMatch(rec, refSeqs, flankLength, true) == Ok(true)
    ensures !rec.isUnmapped && |rec.cigar| > 0 && !SoftClipTooLong(rec.cigar)
    ensures rec.querySequence.Some? && rec.referenceName in refSeqs
    ensures var q := rec.querySequence.value;
            var w := VariantWindow(|q|, flankLength, rec.queryAlignmentStart);
            var c := Collected(rec.alignedPairs, |q|, w);
            && c.Some? && |c.value| > 0
            && forall p :: p in c.value ==>
                 && PairMatches(p, q, refSeqs[rec.referenceName])
                 && w.start - 1 <= p.query.value <= w.end + 1
  {
    var q := rec.querySequence.value;
    var w := VariantWindow(|q|, flankLength, rec.queryAlignmentStart);
    var ws := Collected(rec.alignedPairs, |q|, w).value;
    CheckPairsMeaning(ws, q, refSeqs[rec.referenceName]);
    WantedInRange(rec.alignedPairs[..FirstStop(rec.alignedPairs, w.end, Min(|q|, |rec.alignedPairs|), 0)],
                  w.start - 1, w.end + 1);
  }

  /** A collected pair with a query position has it in `[lo, hi]`. */
  lemma {:induction false} WantedInRange(ps: seq<AlignedPair>, lo: int, hi: int)
    ensures forall p :: p in Wanted(ps, lo, hi) && p.query.Some? ==> lo <= p.query.value <= hi
  {
    if |ps| > 0 {
      WantedInRange(ps[..|ps| - 1], lo, hi);
    }
  }

  /** ... and conversely, such a record is accepted. */
  lemma TolerantAcceptsWhen(rec: AlignmentRecord, refSeqs: map<string, string>, flankLength: nat)
    requires !rec.isUnmapped && |rec.cigar| > 0 && !SoftClipTooLong(rec.cigar)
    requires rec.querySequence.Some? && rec.referenceName in refSeqs
    requires var q := rec.querySequence.value;
             var c := Collected(rec.alignedPairs, |q|, VariantWindow(|q|, flankLength, rec.queryAlignmentStart));
             && c.Some? && |c.value| > 0
             && forall p :: p in c.value ==> PairMatches(p, q, refSeqs[rec.referenceName])
    ensures JudgeMatch(rec, refSeqs, flankLength, true) == Ok(true)
  {
    var q := rec.querySequence.value;
    var c := Collected(rec.alignedPairs, |q|, VariantWindow(|q|, flankLength, rec.queryAlignmentStart));
    CheckPairsMeaning(c.value, q, refSeqs[rec.referenceName]);
  }

  /** Query positions that strictly increase along the pairs, as an aligner reports them. */
  predicate IncreasingQueries(ps: seq<AlignedPair>)
  {
    forall i, j :: 0 <= i < j < |ps| && ps[i].query.Some? && ps[j].query.Some? ==>
      ps[i].query.value < ps[j].query.value
  }

  /** A non-zero position reached was some pair's query position. */
  lemma {:induction false} LastPosWitness(ps: seq<AlignedPair>)
    requires LastPos(ps) > 0
    ensures exists j :: 0 <= j < |ps| && ps[j].query == Some(LastPos(ps))
  {
    if ps[|ps| - 1].query.None? {
      var init := ps[..|ps| - 1];
      LastPosWitness(init);
      var j :| 0 <= j < |init| && init[j].query == Some(LastPos(init));
      assert ps[j] == init[j];
    }
  }

  /** With increasing positions, the position reached never falls below a pair's once the
      scan has passed that pair. */
  lemma {:induction false} LastPosGrows(ps: seq<AlignedPair>, s: nat, k: nat)
    requires IncreasingQueries(ps)
    requires s < k <= |ps| && ps[s].query.Some?
    ensures LastPos(ps[..k]) >= ps[s].query.value
  {
    if k == s + 1 {
      LastPosOfQueryPair(ps, s);
    } else {
      assert ps[..k][..k - 1] == ps[..k - 1];
      assert ps[..k][k - 1] == ps[k - 1];
      if ps[k - 1].query.None? {
        LastPosGrows(ps, s, k - 1);
      }
    }
  }

  /** Pairs whose position lies past `hi` add nothing to the collection. */
  lemma {:induction false} WantedStable(ps: seq<AlignedPair>, s: nat, k: nat, lo: int, hi: int)
    requires s <= k <= |ps|
    requires forall j :: s < j <= k ==> LastPos(ps[..j]) > hi
    ensures Wanted(ps[..k], lo, hi) == Wanted(ps[..s], lo, hi)
  {
    if k > s {
      assert ps[..k][..k - 1] == ps[..k - 1];
      WantedStable(ps, s, k - 1, lo, hi);
    }
  }

  /** The early `break` is safe: when query positions increase and the window does not end
      before position 0, stopping the scan loses no pair in the widened window, so the
      collection is that of the whole query. */
  lemma BreakIsSafe(ps: seq<AlignedPair>, queryLength: nat, w: Window)
    requires IncreasingQueries(ps)
    requires queryLength <= |ps|
    requires w.end >= 0
    ensures Collected(ps, queryLength, w) == Some(Wanted(ps[..queryLength], w.start - 1, w.end + 1))
  {
    var st := FirstStop(ps, w.end, queryLength, 0);
    if st < queryLength {
      var reached := LastPos(ps[..st]);
      LastPosWitness(ps[..st]);
      var j :| 0 <= j < st && ps[..st][j].query == Some(reached);
      assert ps[j].query == Some(reached);
      assert ps[st].query.value >= w.end + 2;
      forall k | st < k <= queryLength ensures LastPos(ps[..k]) > w.end + 1 {
        LastPosGrows(ps, st, k);
      }
      WantedStable(ps, st, queryLength, w.start - 1, w.end + 1);
    }
  }
}
