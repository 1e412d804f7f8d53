/** Stats tally: counts the differences of the summary table that either VCF found, and
    builds a histogram of found differences keyed by the best confidence of their calls. */
module Stats {
  import opened Wrappers
  import Numerals

  /** One row of the summary table: the difference's id, its two alleles, and for each
      VCF the found flag ("1" or "0") and the confidence, absent when empty. */
  datatype SummaryRow = SummaryRow(
    id: string,
    ref: string,
    alt: string,
    refFound: string,
    refConf: Option<string>,
    queryFound: string,
    queryConf: Option<string>)

  /** The three counters of the tally. */
  datatype Counts = Counts(total: nat, foundVars: nat, missedVars: nat)

  /** Line 334 as intended: a difference is found when either VCF found it. */
  predicate IsFound(row: SummaryRow)
  {
    row.refFound == "1" || row.queryFound == "1"
  }

  /** `int(float(c))` of one confidence: its value truncated toward zero. */
  function ConfValue(c: string): Option<int>
  {
    Numerals.ParseDecimalTrunc(c, 0)
  }

  /** Lines 336-337 as intended: the largest truncated confidence among the ones present;
      no confidence at all, or one that is not a number, raises `ValueError`. */
  function Bucket(row: SummaryRow): (r: Result<int>)
    ensures r.Ok? <==>
              && (row.refConf.Some? || row.queryConf.Some?)
              && (row.refConf.Some? ==> ConfValue(row.refConf.value).Some?)
              && (row.queryConf.Some? ==> ConfValue(row.queryConf.value).Some?)
    ensures r.Ok? ==>
              && (row.refConf.Some? ==> ConfValue(row.refConf.value).value <= r.value)
              && (row.queryConf.Some? ==> ConfValue(row.queryConf.value).value <= r.value)
              && ((row.refConf.Some? && ConfValue(row.refConf.value) == Some(r.value))
                  || (row.queryConf.Some? && ConfValue(row.queryConf.value) == Some(r.value)))
  {
    match (row.refConf, row.queryConf)
    case (None, None) => Err("max() arg is an empty sequence")
    case (Some(a), None) => ConfOrError(a)
    case (None, Some(b)) => ConfOrError(b)
    case (Some(a), Some(b)) =>
      match (ConfValue(a), ConfValue(b))
      case (Some(x), Some(y)) => Ok(Max(x, y))
      case _ => Err("could not convert string to float")
  }

  function ConfOrError(c: string): (r: Result<int>)
    ensures r.Ok? <==> ConfValue(c).Some?
    ensures r.Ok? ==> ConfValue(c) == Some(r.value)
  {
    match ConfValue(c)
    case None => Err("could not convert string to float")
    case Some(x) => Ok(x)
  }

  /** One histogram bucket incremented (`gt_conf_hist.get(b, 0) + 1`). */
  function Bump(hist: map<int, nat>, b: int): (h: map<int, nat>)
    ensures b in h && h[b] == (if b in hist then hist[b] else 0) + 1
    ensures forall c :: c != b ==> (c in h <==> c in hist) && (c in hist ==> h[c] == hist[c])
  {
    hist[b := (if b in hist then hist[b] else 0) + 1]
  }

  /** The counters and the histogram of lines 328-341, row by row; the first error raised
      ends the tally. */
  function Tally(rows: seq<SummaryRow>): Result<(Counts, map<int, nat>)>
  {
    if |rows| == 0 then Ok((Counts(0, 0, 0), map[]))
    else
      match Tally(rows[..|rows| - 1])
      case Err(e) => Err(e)
      case Ok((c, hist)) => TallyRow(c, hist, rows[|rows| - 1])
  }

  /** One row of the tally (lines 331-340). */
  function TallyRow(c: Counts, hist: map<int, nat>, row: SummaryRow): Result<(Counts, map<int, nat>)>
  {
    if IsFound(row) then
      match Bucket(row)
      case Err(e) => Err(e)
      case Ok(b) => Ok((Counts(c.total + 1, c.foundVars + 1, c.missedVars), Bump(hist, b)))
    else Ok((Counts(c.total + 1, c.foundVars, c.missedVars + 1), hist))
  }

  /** `_gather_stats`, with the table given as its rows. */
  method GatherStats(rows: seq<SummaryRow>) returns (r: Result<(Counts, map<int, nat>)>)
    ensures r == Tally(rows)
  {
    var total, foundVars, missedVars := 0, 0, 0;
    var hist: map<int, nat> := map[];
    for k := 0 to |rows|
      invariant Tally(rows[..k]) == Ok((Counts(total, foundVars, missedVars), hist))
    {
      assert rows[..k + 1][..k] == rows[..k];
      assert Tally(rows[..k + 1]) == TallyRow(Counts(total, foundVars, missedVars), hist, rows[k]);
      var row := rows[k];
      total := total + 1;
      if row.refFound == "1" || row.queryFound == "1" {
        foundVars := foundVars + 1;
        var b := Bucket(row);
        if b.Err? {
          TallyFails(rows, k + 1);
          return Err(b.msg);
        }
        hist := hist[b.value := (if b.value in hist then hist[b.value] else 0) + 1];
      } else {
        missedVars := missedVars + 1;
      }
    }
    assert rows[..|rows|] == rows;
    return Ok((Counts(total, foundVars, missedVars), hist));
  }

  /** An error stays the error whatever rows follow. */
  lemma {:induction false} TallyFails(rows: seq<SummaryRow>, k: nat)
    requires k <= |rows|
    requires Tally(rows[..k]).Err?
    ensures Tally(rows) == Tally(rows[..k])
    decreases |rows| - k
  {
    if k == |rows| {
      assert rows[..k] == rows;
    } else {
      assert rows[..k + 1][..k] == rows[..k];
      TallyFails(rows, k + 1);
    }
  }

  /** The number of found rows. */
  function CountFound(rows: seq<SummaryRow>): (n: nat)
    ensures n <= |rows|
  {
    if |rows| == 0 then 0
    else CountFound(rows[..|rows| - 1]) + (if IsFound(rows[|rows| - 1]) then 1 else 0)
  }

  /** The number of found rows whose bucket is `b`. */
  function CountBucket(rows: seq<SummaryRow>, b: int): (n: nat)
    ensures n <= CountFound(rows)
  {
    if |rows| == 0 then 0
    else CountBucket(rows[..|rows| - 1], b)
         + (if IsFound(rows[|rows| - 1]) && Bucket(rows[|rows| - 1]) == Ok(b) then 1 else 0)
  }

  /** Every row is counted once, as found or as missed, and found exactly when either VCF
      found it; the tally succeeds exactly when every found row has a usable confidence. */
  lemma {:induction false} TallyCounts(rows: seq<SummaryRow>)
    ensures Tally(rows).Ok? <==> forall k :: 0 <= k < |rows| && IsFound(rows[k]) ==> Bucket(rows[k]).Ok?
    ensures Tally(rows).Ok? ==>
              var c := Tally(rows).value.0;
              && c.total == |rows|
              && c.total == c.foundVars + c.missedVars
              && c.foundVars == CountFound(rows)
  {
    if |rows| > 0 {
      var init := rows[..|rows| - 1];
      TallyCounts(init);
      assert forall k :: 0 <= k < |init| ==> init[k] == rows[k];
    }
  }

  /** Each found row adds one to exactly its own bucket: a bucket's count is the number of
      found rows whose best confidence truncates to it, and a bucket exists only when some
      found row falls in it. */
  lemma {:induction false} TallyHistogram(rows: seq<SummaryRow>)
    requires Tally(rows).Ok?
    ensures var hist := Tally(rows).value.1;
            forall b :: (b in hist ==> hist[b] == CountBucket(rows, b) && hist[b] > 0)
                        && (b !in hist ==> CountBucket(rows, b) == 0)
  {
    if |rows| > 0 {
      TallyHistogram(rows[..|rows| - 1]);
    }
  }

  /** Every cell of a table row as `itertuples()` yields it, empty cells as `Missing`. */
  datatype Cell = Text(text: string) | Missing

  function OptionCell(c: Option<string>): Cell
  {
    if c.Some? then Text(c.value) else Missing
  }

  /** The tuple `itertuples()` yields for row `k` of the table read back: the frame's index,
      then the column of row numbers the table was written with, then the seven columns
      in the order they were built (lines 317-323). */
  function ItertuplesLine(k: nat, row: SummaryRow): (line: seq<Cell>)
    ensures |line| == 9
  {
    var n := Text(Numerals.NatToString(k));
    [n, n, Text(row.id), Text(row.ref), Text(row.alt),
     Text(row.refFound), OptionCell(row.refConf), Text(row.queryFound), OptionCell(row.queryConf)]
  }

  /** Line 334 as written: the found test reads cells 4 and 6 of the tuple. */
  predicate FoundAsWritten(line: seq<Cell>)
    requires |line| >= 7
  {
    line[4] == Text("1") || line[6] == Text("1")
  }

  /** Finding: cells 4 and 6 are the ALT allele and the first confidence, not the two found
      flags, so as written a row counts as found exactly when its ALT or its confidence is
      the text "1". */
  lemma FoundAsWrittenReadsAltAndConf(k: nat, row: SummaryRow)
    ensures FoundAsWritten(ItertuplesLine(k, row)) <==> row.alt == "1" || row.refConf == Some("1")
  {
  }

  /** The concrete case: a SNP A>T found by both VCFs with confidence 50 is counted as
      missed as written, and as found with bucket 50 as intended. */
  lemma FoundAsWrittenExample()
    ensures var row := SummaryRow("100", "A", "T", "1", Some("50"), "1", Some("50"));
            && !FoundAsWritten(ItertuplesLine(0, row))
            && IsFound(row)
            && Bucket(row) == Ok(50)
  {
    Numerals.DecimalTruncRoundTrip(50);
    assert Numerals.NatToString(5) == "5";
    assert Numerals.IntToString(50) == "50";
  }
}
