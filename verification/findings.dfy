/** The lower TTL bound as `update_rr` computes it starts at 86400 and only
    moves down, so a TTL above a day can never become the minimum: a zone
    whose TTLs all exceed a day reports 86400, a value none of its records
    has. `CorrectedLowerBound` is the bound as evidently intended, where the
    first TTL to enter the bounds sets it. */
module TtlFinding {
  import opened ZoneContent
  import opened TallyFacts
  import opened FoldFacts
  import opened Report

  /** The least TTL that entered the bounds, or the starting value 86400
      when none did: the source's fold, seeded with the first TTL instead
      of 86400. */
  function CorrectedLowerBound(ttls: seq<nat>): (lo: int)
    ensures ttls == [] ==> lo == TtlMinStart
    ensures ttls != [] ==> lo in ttls && forall x :: x in ttls ==> lo <= x
  {
    if ttls == [] then TtlMinStart
    else
      assert forall x :: x in ttls ==> x == ttls[0] || x in ttls[1..];
      LowerFold(ttls[0], ttls[1..])
  }

  /** Over the lines of a zone, the corrected bound is the least TTL of a
      line entering the bounds. */
  lemma CorrectedMinIsLeast(lines: seq<string>)
    requires HasBounding(lines)
    ensures var lo := CorrectedLowerBound(BoundingTtls(lines));
      && IsBoundingTtl(lines, lo)
      && forall i :: 0 <= i < |lines| && Bounding(lines[i]) ==> lo <= LineTtl(StripNewlines(lines[i]))
  {
    BoundingTtlsMembers(lines);
    forall i | 0 <= i < |lines| && Bounding(lines[i])
      ensures LineTtl(StripNewlines(lines[i])) in BoundingTtls(lines)
    {
      assert IsBoundingTtl(lines, LineTtl(StripNewlines(lines[i])));
    }
  }

  /** As written: when every TTL entering the bounds exceeds a day, the
      reported minimum is 86400, which is the TTL of no such line and lies
      strictly below the corrected bound. */
  lemma LongTtlsReportSentinel(zone: string, lines: seq<string>)
    requires ZoneSummary(zone, lines).Ok?
    requires HasBounding(lines)
    requires forall i :: 0 <= i < |lines| && Bounding(lines[i]) ==> LineTtl(StripNewlines(lines[i])) > TtlMinStart
    ensures var r := ZoneSummary(zone, lines).value;
      && r.Summary?
      && r.ttlMin == 86400
      && !IsBoundingTtl(lines, r.ttlMin)
      && r.ttlMin < CorrectedLowerBound(BoundingTtls(lines))
  {
    SummaryTtlRange(zone, lines);
    CorrectedMinIsLeast(lines);
  }

  /** One NS record with a two-day TTL: the source's fold gives 86400, the
      corrected one the record's own TTL. */
  lemma TwoDayDelegation()
    ensures LowerFold(TtlMinStart, [172800]) == 86400
    ensures CorrectedLowerBound([172800]) == 172800
  {
    assert 172800 in [172800];
  }
}
