/** The values `print_stats` reads off the final statistics, and what the
    invariants of the fold guarantee about them. Formatting, and the
    percentages themselves, are not modelled; which rows carry the second
    percentage column is. */
module Report {
  import opened Outcome
  import opened Sums
  import opened Order
  import opened ZoneContent
  import opened TallyFacts
  import opened FoldFacts

  /** One row of the type table: the type, its count, and whether the row
      carries the percentage relative to the non-DNSSEC total. */
  datatype TypeRow = TypeRow(rrtype: string, count: nat, nonDnssecColumn: bool)

  /** What the report shows. `NoZoneData` is the lone error line of an
      empty zone; the optional values are the lines printed only under a
      condition. */
  datatype Report =
    | NoZoneData
    | Summary(
        totalRR: nat,
        totalRRNoDnssec: Option<nat>,
        totalRRsets: nat,
        totalRRsetsNoDnssec: Option<nat>,
        totalNames: nat,
        totalNamesNoDnssec: Option<int>,
        totalTsig: Option<nat>,
        ttlMin: int,
        ttlMax: int,
        ttlAvg: nat,
        signed: bool,
        table: seq<TypeRow>)

  /** A zone is reported as signed when it holds NSEC or NSEC3 records. */
  predicate IsSigned(s: ZoneStats) {
    "NSEC" in s.types || "NSEC3" in s.types
  }

  /** The row of the type table for type `t`. */
  function RowOf(types: map<string, nat>, signed: bool, t: string): (row: TypeRow)
    requires t in types
  {
    TypeRow(t, types[t], signed && t !in DnssecTypes)
  }

  /** `sorted(self.RRTYPE.items())`, each row marked for the second
      percentage column when the zone is signed and the type is not a
      DNSSEC type. */
  function TypeTable(types: map<string, nat>, signed: bool): (rows: seq<TypeRow>)
    ensures |rows| == |types|
    ensures forall i, j :: 0 <= i < j < |rows| ==> Less(rows[i].rrtype, rows[j].rrtype)
    ensures forall i :: 0 <= i < |rows| ==>
      (rows[i].nonDnssecColumn <==> signed && rows[i].rrtype !in DnssecTypes)
  {
    var keys := SortedElements(types.Keys);
    assert |types| == |types.Keys|;
    seq(|keys|, i requires 0 <= i < |keys| => RowOf(types, signed, keys[i]))
  }

  /** Each row of the type table is a type seen, with its count. */
  lemma TypeTableCounts(types: map<string, nat>, signed: bool)
    ensures var rows := TypeTable(types, signed);
      forall i :: 0 <= i < |rows| ==> rows[i].rrtype in types && rows[i].count == types[rows[i].rrtype]
  {
    var keys := SortedElements(types.Keys);
    var rows := TypeTable(types, signed);
    assert forall i :: 0 <= i < |rows| ==> rows[i] == RowOf(types, signed, keys[i]);
  }

  /** Every type seen has a row in the type table. */
  lemma TypeTableCovers(types: map<string, nat>, signed: bool)
    ensures var rows := TypeTable(types, signed);
      forall t :: t in types ==> exists i :: 0 <= i < |rows| && rows[i].rrtype == t
  {
    var keys := SortedElements(types.Keys);
    var rows := TypeTable(types, signed);
    forall t | t in types
      ensures exists i :: 0 <= i < |rows| && rows[i].rrtype == t
    {
      assert t in keys;
      var i :| 0 <= i < |keys| && keys[i] == t;
      assert rows[i] == RowOf(types, signed, keys[i]);
    }
  }

  /** `int(total * 1.0 / count)`: the quotient truncated to a whole
      number, that is the largest whole number of counts that fit in the
      total. */
  function TruncatedAverage(total: nat, count: nat): (avg: nat)
    requires count > 0
    ensures avg * count <= total < (avg + 1) * count
  {
    var q := total / count;
    assert total == q * count + total % count;
    assert (q + 1) * count == q * count + count;
    q
  }

  /** `ZoneStats.print_stats`: nothing but the error for an empty zone;
      otherwise the totals, the "(minus DNSSEC)" lines for a signed zone
      (the names line only when NSEC3 is present), the TSIG line when any
      TSIG was seen, the TTL bounds and the truncated average, and the
      type table. */
  function PrintStats(s: ZoneStats): (r: Report)
    ensures r.NoZoneData? <==> s.rr == 0
    ensures r.Summary? ==>
      && (r.signed <==> IsSigned(s))
      && r.totalRR == s.rr
      && r.totalRRsets == |s.rrsets|
      && r.totalNames == |s.owners|
      && (r.totalRRNoDnssec.Some? <==> r.signed)
      && (r.totalRRNoDnssec.Some? ==> r.totalRRNoDnssec.value == s.rrNoDnssec)
      && (r.totalRRsetsNoDnssec.Some? <==> r.signed)
      && (r.totalRRsetsNoDnssec.Some? ==> r.totalRRsetsNoDnssec.value == |s.rrsetsNoDnssec|)
      && (r.totalNamesNoDnssec.Some? <==> "NSEC3" in s.types)
      && (r.totalNamesNoDnssec.Some? ==> r.totalNamesNoDnssec.value == |s.owners| - s.types["NSEC3"])
      && (r.totalTsig.Some? <==> s.rrTsig > 0)
      && (r.totalTsig.Some? ==> r.totalTsig.value == s.rrTsig)
      && r.ttlAvg == TruncatedAverage(s.sumTtl, s.rr)
      && r.ttlMin == s.ttlMin && r.ttlMax == s.ttlMax
      && r.table == TypeTable(s.types, r.signed)
  {
    if s.rr == 0 then NoZoneData
    else
      var signed := IsSigned(s);
      Summary(
        totalRR := s.rr,
        totalRRNoDnssec := if signed then Some(s.rrNoDnssec) else None,
        totalRRsets := |s.rrsets|,
        totalRRsetsNoDnssec := if signed then Some(|s.rrsetsNoDnssec|) else None,
        totalNames := |s.owners|,
        totalNamesNoDnssec := if signed && "NSEC3" in s.types then Some(|s.owners| - s.types["NSEC3"]) else None,
        totalTsig := if s.rrTsig > 0 then Some(s.rrTsig) else None,
        ttlMin := s.ttlMin,
        ttlMax := s.ttlMax,
        ttlAvg := TruncatedAverage(s.sumTtl, s.rr),
        signed := signed,
        table := TypeTable(s.types, signed))
  }

  /** The sum of the counts of the table's rows. */
  function TableTotal(rows: seq<TypeRow>): (total: nat) {
    if rows == [] then 0 else rows[0].count + TableTotal(rows[1..])
  }

  /** A table listing each key of `m` once, with its count, adds up to the
      total of `m`. */
  lemma {:induction false} TableTotalIsSum(rows: seq<TypeRow>, m: map<string, nat>)
    requires forall i, j :: 0 <= i < j < |rows| ==> Less(rows[i].rrtype, rows[j].rrtype)
    requires forall i :: 0 <= i < |rows| ==> rows[i].rrtype in m && rows[i].count == m[rows[i].rrtype]
    requires forall t :: t in m ==> exists i :: 0 <= i < |rows| && rows[i].rrtype == t
    ensures TableTotal(rows) == SumBy(m, Id)
    decreases |rows|
  {
    if rows == [] {
      assert m.Keys == {};
      assert m == map[];
    } else {
      var k := rows[0].rrtype;
      var rest := m - {k};
      forall i | 0 <= i < |rows[1..]|
        ensures rows[1..][i].rrtype in rest && rows[1..][i].count == rest[rows[1..][i].rrtype]
      {
        assert Less(k, rows[i + 1].rrtype);
        LessIrreflexive(k);
      }
      forall t | t in rest
        ensures exists i :: 0 <= i < |rows[1..]| && rows[1..][i].rrtype == t
      {
        var i :| 0 <= i < |rows| && rows[i].rrtype == t;
        assert i != 0;
        assert rows[1..][i - 1].rrtype == t;
      }
      TableTotalIsSum(rows[1..], rest);
      SumByRemove(m, Id, k);
    }
  }

  /** The counts of the type table add up to the total record count. */
  lemma TableAddsUp(s: ZoneStats)
    requires Conserved(s)
    ensures var r := PrintStats(s);
      r.Summary? ==> TableTotal(r.table) == r.totalRR
  {
    var r := PrintStats(s);
    if r.Summary? {
      TypeTableCounts(s.types, r.signed);
      TypeTableCovers(s.types, r.signed);
      TableTotalIsSum(r.table, s.types);
    }
  }

  /** No row of the type table counts more records than the total. */
  lemma RowsWithinTotal(s: ZoneStats)
    requires Conserved(s)
    ensures var r := PrintStats(s);
      r.Summary? ==> forall i :: 0 <= i < |r.table| ==> r.table[i].count <= r.totalRR
  {
    var r := PrintStats(s);
    if r.Summary? {
      TypeTableCounts(s.types, r.signed);
      forall i | 0 <= i < |r.table|
        ensures r.table[i].count <= r.totalRR
      {
        SumByRemove(s.types, Id, r.table[i].rrtype);
      }
    }
  }

  /** Distinct RRsets and distinct names never outnumber the records, and
      the non-DNSSEC RRsets never outnumber the RRsets. */
  lemma DistinctCountsBounded(s: ZoneStats)
    requires Conserved(s) && Consistent(s) && DnssecSplit(s)
    ensures var r := PrintStats(s);
      r.Summary? ==>
        && r.totalRRsets <= r.totalRR
        && r.totalNames <= r.totalRR
        && (r.signed ==> r.totalRRsetsNoDnssec.value <= r.totalRRsets)
  {
    DistinctTablesBounded(s);
  }

  /** The table sizes behind `DistinctCountsBounded`. */
  lemma DistinctTablesBounded(s: ZoneStats)
    requires Conserved(s) && Consistent(s) && DnssecSplit(s)
    ensures |s.rrsets| <= s.rr && |s.owners| <= s.rr && |s.rrsetsNoDnssec| <= |s.rrsets|
  {
    SizeAtMostSum(s.rrsets, Id);
    assert forall o :: o in s.owners ==> Len(s.owners[o]) >= 1;
    SizeAtMostSum(s.owners, Len);
    assert s.rrsetsNoDnssec.Keys <= s.rrsets.Keys;
    CardinalityMonotone(s.rrsetsNoDnssec.Keys, s.rrsets.Keys);
  }

  /** A signed zone holds at least one DNSSEC record, so its "(minus
      DNSSEC)" record count is strictly below the total; a row with the
      second percentage column counts only records inside that smaller
      total, which is then never zero. */
  lemma NonDnssecColumnWellDefined(s: ZoneStats)
    requires Consistent(s) && DnssecSplit(s)
    ensures var r := PrintStats(s);
      r.Summary? ==>
        && (r.signed ==> r.totalRRNoDnssec.value < r.totalRR)
        && (forall i :: 0 <= i < |r.table| && r.table[i].nonDnssecColumn ==>
              0 < r.table[i].count <= s.rrNoDnssec)
  {
    var r := PrintStats(s);
    if r.Summary? {
      TypeTableCounts(s.types, r.signed);
    }
  }

  /** The reported minimum TTL is at most the maximum exactly when some
      record's TTL entered the bounds; when every record is excluded, the
      report shows the starting values 86400 and -1. */
  lemma TtlBoundsReported(s: ZoneStats)
    requires TtlBounded(s)
    ensures var r := PrintStats(s);
      r.Summary? ==>
        && (r.ttlMin <= r.ttlMax <==> s.rrExcludeTtl < s.rr)
        && (s.rrExcludeTtl == s.rr ==> r.ttlMin == 86400 && r.ttlMax == -1)
  {
  }

  lemma CardinalityMonotone<T>(a: set<T>, b: set<T>)
    requires a <= b
    ensures |a| <= |b|
  {
    assert b == a + (b - a);
  }

  /** With at most one NSEC3 record per owner, the NSEC3 weight of an
      owner is one exactly when it holds NSEC3. */
  lemma Nsec3Weights(m: map<string, seq<string>>)
    requires forall o :: o in m ==> Occ(m[o], "NSEC3") <= 1
    ensures forall o :: o in m ==> Occurrences("NSEC3")(m[o]) <= 1
    ensures forall o :: o in m ==> (Occurrences("NSEC3")(m[o]) == 1 <==> "NSEC3" in m[o])
  {
    forall o | o in m
      ensures Occurrences("NSEC3")(m[o]) == 1 <==> "NSEC3" in m[o]
    {
      OccPositive(m[o], "NSEC3");
    }
  }

  /** The owner count less the NSEC3 record count is the number of owners
      without NSEC3 whenever no owner holds two NSEC3 records. */
  lemma OwnersWithoutNsec3(s: ZoneStats)
    requires SumBy(s.owners, Occurrences("NSEC3")) == CountOf(s.types, "NSEC3")
    requires forall o :: o in s.owners ==> Occ(s.owners[o], "NSEC3") <= 1
    ensures |s.owners| - CountOf(s.types, "NSEC3") == |set o | o in s.owners && "NSEC3" !in s.owners[o]|
  {
    var w := Occurrences("NSEC3");
    var m := s.owners;
    Nsec3Weights(m);
    SumOfUnitWeights(m, w);
    var withoutNsec3 := set o | o in m && "NSEC3" !in m[o];
    UnitKeysComplement(m, w, withoutNsec3);
  }

  /** The "(minus DNSSEC)" name count of an NSEC3 zone, the owner count
      less the NSEC3 record count, is exactly the number of owners without
      NSEC3 whenever no owner holds two NSEC3 records. */
  lemma AdjustedNamesExact(s: ZoneStats)
    requires Conserved(s)
    requires forall o :: o in s.owners ==> Occ(s.owners[o], "NSEC3") <= 1
    ensures var r := PrintStats(s);
      r.Summary? && r.totalNamesNoDnssec.Some? ==>
        r.totalNamesNoDnssec.value == |set o | o in s.owners && "NSEC3" !in s.owners[o]|
  {
    assert SumBy(s.owners, Occurrences("NSEC3")) == CountOf(s.types, "NSEC3");
    OwnersWithoutNsec3(s);
  }

  /** The whole run: the fold over the input from a fresh `ZoneStats`, then
      the report, or the error of the first bad line. */
  function ZoneSummary(zone: string, lines: seq<string>): (r: Result<Report, ParseError>) {
    match Process(Init(zone), lines)
    case Err(e) => Err(e)
    case Ok(s) => Ok(PrintStats(s))
  }

  /** The run reports only "no zone data" exactly when the input holds no
      record other than TSIG; otherwise the totals are those of the input's
      record lines, the TSIG line appears exactly when the input holds a
      TSIG record, and the zone counts as signed exactly when the input
      holds an NSEC or NSEC3 record. */
  lemma SummaryTotals(zone: string, lines: seq<string>)
    requires ZoneSummary(zone, lines).Ok?
    ensures var r := ZoneSummary(zone, lines).value;
      && (r.NoZoneData? <==> NumRecords(lines) == 0)
      && (r.Summary? ==>
            && r.totalRR == NumRecords(lines)
            && (r.totalRRNoDnssec.Some? ==> r.totalRRNoDnssec.value == NumNonDnssec(lines))
            && (r.totalTsig.Some? <==> NumTsig(lines) > 0)
            && (r.totalTsig.Some? ==> r.totalTsig.value == NumTsig(lines))
            && (r.signed <==> NumOfType(lines, "NSEC") > 0 || NumOfType(lines, "NSEC3") > 0))
  {
    var s0 := Init(zone);
    var s := Process(s0, lines).value;
    assert ZoneSummary(zone, lines).value == PrintStats(s);
    ProcessCounters(s0, lines);
    RunTypePresent(zone, lines, "NSEC");
    RunTypePresent(zone, lines, "NSEC3");
  }

  /** Each row of the report's type table counts exactly the input's
      record lines of its type. */
  lemma SummaryTypeCounts(zone: string, lines: seq<string>)
    requires ZoneSummary(zone, lines).Ok?
    ensures var r := ZoneSummary(zone, lines).value;
      r.Summary? ==> forall i :: 0 <= i < |r.table| ==> r.table[i].count == NumOfType(lines, r.table[i].rrtype)
  {
    var s := Process(Init(zone), lines).value;
    var r := PrintStats(s);
    if r.Summary? {
      TypeTableCounts(s.types, r.signed);
      forall i | 0 <= i < |r.table|
        ensures r.table[i].count == NumOfType(lines, r.table[i].rrtype)
      {
        ProcessTypeCounts(Init(zone), lines, r.table[i].rrtype);
      }
    }
  }

  /** When some line of the input enters the TTL bounds, the reported
      maximum is the greatest of their TTLs, and the reported minimum is
      the least of them or 86400, whichever is smaller: it is at most 86400,
      at most every such TTL, and either 86400 or one of those TTLs. */
  lemma SummaryTtlRange(zone: string, lines: seq<string>)
    requires ZoneSummary(zone, lines).Ok?
    requires HasBounding(lines)
    ensures var r := ZoneSummary(zone, lines).value;
      && r.Summary?
      && r.ttlMin <= 86400
      && (r.ttlMin == 86400 || IsBoundingTtl(lines, r.ttlMin))
      && IsBoundingTtl(lines, r.ttlMax)
      && (forall i :: 0 <= i < |lines| && Bounding(lines[i]) ==>
            r.ttlMin <= LineTtl(StripNewlines(lines[i])) <= r.ttlMax)
  {
    var s0 := Init(zone);
    var s := Process(s0, lines).value;
    ProcessTtlBounds(s0, lines);
    ProcessCounters(s0, lines);
    var i :| 0 <= i < |lines| && Bounding(lines[i]);
    BoundingCounted(lines, i);
    assert s.ttlMax != TtlMaxStart by {
      assert s.ttlMax >= LineTtl(StripNewlines(lines[i]));
    }
    assert ZoneSummary(zone, lines).value == PrintStats(s);
  }

  /** A line entering the TTL bounds is a tallied record line. */
  lemma {:induction false} BoundingCounted(lines: seq<string>, i: nat)
    requires i < |lines| && Bounding(lines[i])
    ensures NumRecords(lines) > 0
    decreases i
  {
    if i > 0 {
      BoundingCounted(lines[1..], i - 1);
    }
  }
}
