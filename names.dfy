/** Names of the fragments cut from the called variants: `ref_name.start.record.allele`,
    built with `'.'.join` and read back with `rsplit('.', maxsplit=3)`. */
module FragmentNames {
  import opened Wrappers
  import Strings
  import Numerals

  /** The four fields of a decoded name, read as integers. */
  datatype FragmentName = FragmentName(refName: string, expectedStart: nat, vcfRecordIndex: nat, alleleIndex: nat)

  /** The name of allele `alleleIndex` (0 for REF) of the `recordIndex`-th record on
      `refName`, whose flanked sequences start at 0-based `startPosition`; the name
      carries the start 1-based. */
  function EncodeName(refName: string, startPosition: nat, recordIndex: nat, alleleIndex: nat): string
  {
    Strings.Join([refName, Numerals.NatToString(startPosition + 1),
                  Numerals.NatToString(recordIndex), Numerals.NatToString(alleleIndex)], '.')
  }

  /** Line 285: the name split from the right at its last three dots into the reference
      name and three pieces, each of which must read as an integer. Fewer than three dots
      is the `ValueError` of unpacking too few values; a piece that is no number is the
      conversion's. */
  function DecodeName(name: string): (r: Result<FragmentName>)
    ensures var parts := Strings.RSplit(name, '.', 3);
            r.Ok? <==> && |parts| == 4
                       && Numerals.ParseNat(parts[1]).Some?
                       && Numerals.ParseNat(parts[2]).Some?
                       && Numerals.ParseNat(parts[3]).Some?
  {
    var parts := Strings.RSplit(name, '.', 3);
    if |parts| != 4 then Err("not enough values to unpack")
    else
      match (Numerals.ParseNat(parts[1]), Numerals.ParseNat(parts[2]), Numerals.ParseNat(parts[3]))
      case (Some(start), Some(index), Some(allele)) => Ok(FragmentName(parts[0], start, index, allele))
      case _ => Err("invalid literal for int()")
  }

  /** The reverse round trip: a name that decodes is the dot-join of the reference name and
      three dot-free digit strings whose values are the decoded start, record index and
      allele index. */
  lemma DecodeJoins(name: string)
    ensures var r := DecodeName(name);
            var parts := Strings.RSplit(name, '.', 3);
            r.Ok? ==>
              && |parts| == 4
              && name == Strings.Join(parts, '.')
              && parts[0] == r.value.refName
              && '.' !in parts[1] && '.' !in parts[2] && '.' !in parts[3]
              && Numerals.ParseNat(parts[1]) == Some(r.value.expectedStart)
              && Numerals.ParseNat(parts[2]) == Some(r.value.vcfRecordIndex)
              && Numerals.ParseNat(parts[3]) == Some(r.value.alleleIndex)
  {
    Strings.JoinRSplit(name, '.', 3);
    Strings.RSplitTailFree(name, '.', 3);
  }

  lemma NoDot(n: nat)
    ensures '.' !in Numerals.NatToString(n)
  {
    var s := Numerals.NatToString(n);
    forall i | 0 <= i < |s| ensures s[i] != '.' { assert Numerals.IsDigit(s[i]); }
  }

  /** Round trip: decoding an encoded name gives back every field, the start shifted to
      1-based, whatever dots the reference name itself contains. */
  lemma DecodeEncode(refName: string, startPosition: nat, recordIndex: nat, alleleIndex: nat)
    ensures DecodeName(EncodeName(refName, startPosition, recordIndex, alleleIndex))
            == Ok(FragmentName(refName, startPosition + 1, recordIndex, alleleIndex))
  {
    var parts := [refName, Numerals.NatToString(startPosition + 1),
                  Numerals.NatToString(recordIndex), Numerals.NatToString(alleleIndex)];
    NoDot(startPosition + 1);
    NoDot(recordIndex);
    NoDot(alleleIndex);
    Strings.RSplitJoin(parts, '.');
    Numerals.ParseNatRoundTrip(startPosition + 1);
    Numerals.ParseNatRoundTrip(recordIndex);
    Numerals.ParseNatRoundTrip(alleleIndex);
  }

  /** Encoding is injective: two variants never share a fragment name. */
  lemma EncodeInjective(r1: string, s1: nat, i1: nat, a1: nat, r2: string, s2: nat, i2: nat, a2: nat)
    requires EncodeName(r1, s1, i1, a1) == EncodeName(r2, s2, i2, a2)
    ensures r1 == r2 && s1 == s2 && i1 == i2 && a1 == a2
  {
    DecodeEncode(r1, s1, i1, a1);
    DecodeEncode(r2, s2, i2, a2);
  }
}
