/** The zone-statistics fold of zonecontent.py: each presentation-format
    record line is split into its five fields and tallied into an immutable
    `ZoneStats` value, and the driver feeds it every input line that is
    neither blank nor a `;` comment. */
module ZoneContent {
  import opened Outcome
  import opened Text
  import opened Sums

  /** The record types counted as DNSSEC (`dnssec_rrlist`). */
  const DnssecTypes: set<string> :=
    {"DNSKEY", "DS", "CDNSKEY", "CDS", "TYPE65534", "RRSIG", "NSEC", "NSEC3", "NSEC3PARAM"}

  /** The record types whose TTL is kept out of the TTL bounds (`rr_exclude_ttl`). */
  const ExcludeTtlTypes: set<string> := {"NSEC3PARAM", "TYPE65534", "TSIG", "TKEY"}

  /** Starting values of the TTL bounds: the minimum starts at one day and
      the maximum below every TTL. */
  const TtlMinStart: int := 86400
  const TtlMaxStart: int := -1

  /** Why a line could not be tallied: it splits into fewer than five
      fields, or its TTL field is not a number. */
  datatype ParseError = MalformedRecord | InvalidTtl

  /** One record line split into its five fields; `rdata` is the rest of the
      line after the type, kept verbatim. */
  datatype Record = Record(owner: string, ttl: string, rrclass: string, rrtype: string, rdata: string)

  /** The key of an RRset: owner name, type and class. */
  datatype RRsetKey = RRsetKey(owner: string, rrtype: string, rrclass: string)

  /** The running statistics of one zone. `owners` is the source's `RR` (the
      types seen at each owner, in arrival order), `types` its `RRTYPE`,
      `rrsets` its `RRSET` and `rrsetsNoDnssec` its `RRSET_NODNSSEC`; the
      four counters are the entries of its `counts` table. */
  datatype ZoneStats = ZoneStats(
    zone: string,
    rr: nat,
    rrNoDnssec: nat,
    rrTsig: nat,
    rrExcludeTtl: nat,
    owners: map<string, seq<string>>,
    types: map<string, nat>,
    rrsets: map<RRsetKey, nat>,
    rrsetsNoDnssec: map<RRsetKey, nat>,
    ttlMax: int,
    ttlMin: int,
    sumTtl: nat)

  /** `m.get(k, 0)`. */
  function CountOf<K>(m: map<K, nat>, k: K): (n: nat) {
    if k in m then m[k] else 0
  }

  /** `m.get(o, [])`. */
  function TypesAt(m: map<string, seq<string>>, o: string): (types: seq<string>) {
    if o in m then m[o] else []
  }

  /** `m[k] = m.get(k, 0) + 1`. */
  function Bump<K(!new)>(m: map<K, nat>, k: K): (r: map<K, nat>)
    ensures r.Keys == m.Keys + {k}
    ensures CountOf(r, k) == CountOf(m, k) + 1
    ensures forall j :: j != k ==> CountOf(r, j) == CountOf(m, j)
  {
    m[k := CountOf(m, k) + 1]
  }

  /** Weights for totals over the tables. */
  function Id(n: nat): (w: nat) { n }
  function Len(l: seq<string>): (w: nat) { |l| }

  /** How often `t` occurs in `l`. */
  function Occ(l: seq<string>, t: string): (n: nat) {
    if l == [] then 0 else Occ(l[..|l| - 1], t) + (if l[|l| - 1] == t then 1 else 0)
  }

  function Occurrences(t: string): (w: seq<string> -> nat) {
    l => Occ(l, t)
  }

  /** The entries of an RRset table whose type is not a DNSSEC type. */
  function NonDnssecPart(m: map<RRsetKey, nat>): (part: map<RRsetKey, nat>) {
    map k | k in m && k.rrtype !in DnssecTypes :: m[k]
  }

  /** Every tally accounts for each non-TSIG record exactly once. */
  ghost predicate Conserved(s: ZoneStats) {
    && SumBy(s.types, Id) == s.rr
    && SumBy(s.rrsets, Id) == s.rr
    && SumBy(s.owners, Len) == s.rr
    && SumBy(s.rrsetsNoDnssec, Id) == s.rrNoDnssec
    && (forall t :: SumBy(s.owners, Occurrences(t)) == CountOf(s.types, t))
  }

  /** No entry of a table is ever created empty, and every RRset is
      reflected in the owner and type tables, TSIG in none of them. */
  ghost predicate Consistent(s: ZoneStats) {
    && (forall t :: t in s.types ==> s.types[t] >= 1)
    && (forall k :: k in s.rrsets ==> s.rrsets[k] >= 1)
    && (forall o :: o in s.owners ==> s.owners[o] != [])
    && (forall k :: k in s.rrsets ==>
          k.rrtype in s.types && k.owner in s.owners && k.rrtype in s.owners[k.owner])
    && "TSIG" !in s.types
  }

  /** The non-DNSSEC tallies are the non-DNSSEC part of the full ones. */
  ghost predicate DnssecSplit(s: ZoneStats) {
    && s.rrsetsNoDnssec == NonDnssecPart(s.rrsets)
    && s.rrNoDnssec <= s.rr
    && (forall t :: t in s.types && t in DnssecTypes ==> s.types[t] <= s.rr - s.rrNoDnssec)
    && (forall t :: t in s.types && t !in DnssecTypes ==> s.types[t] <= s.rrNoDnssec)
  }

  /** The TTL bounds stay at their starting values until a record that is
      not excluded arrives, and bracket its TTL from then on. */
  ghost predicate TtlBounded(s: ZoneStats) {
    && s.rrExcludeTtl <= s.rr
    && (s.rrExcludeTtl == s.rr ==> s.ttlMin == TtlMinStart && s.ttlMax == TtlMaxStart)
    && (s.rrExcludeTtl < s.rr ==> 0 <= s.ttlMin <= s.ttlMax)
    && s.ttlMin <= TtlMinStart
    && s.ttlMax >= TtlMaxStart
  }

  /** What holds of the statistics after any sequence of successful updates. */
  ghost predicate Valid(s: ZoneStats) {
    Conserved(s) && Consistent(s) && DnssecSplit(s) && TtlBounded(s)
  }

  /** `ZoneStats(name)`: nothing counted yet, the TTL bounds at their
      starting values. */
  function Init(zone: string): (s: ZoneStats)
    ensures Valid(s)
    ensures s.zone == zone && s.rr == 0 && s.rrTsig == 0 && s.sumTtl == 0
    ensures s.ttlMin == TtlMinStart && s.ttlMax == TtlMaxStart
  {
    var s := ZoneStats(zone, 0, 0, 0, 0, map[], map[], map[], map[], TtlMaxStart, TtlMinStart, 0);
    assert s.rrsetsNoDnssec == NonDnssecPart(s.rrsets);
    s
  }

  /** `textrr.split(None, 4)` unpacked into five names: fewer than five parts
      is an error. */
  function ParseRecord(line: string): (r: Result<Record, ParseError>)
    ensures r.Ok? <==> |Tokens(line)| >= 5
    ensures r.Err? ==> r.error == MalformedRecord
    ensures r.Ok? ==>
      && r.value.owner == Tokens(line)[0]
      && r.value.ttl == Tokens(line)[1]
      && r.value.rrclass == Tokens(line)[2]
      && r.value.rrtype == Tokens(line)[3]
      && IsRemainder(r.value.rdata, line, Tokens(line)[4..])
  {
    SplitMaxFacts(line, 4);
    var parts := SplitMax(line, 4);
    if |parts| != 5 then Err(MalformedRecord)
    else
      assert parts[..4][3] == parts[3];
      Ok(Record(parts[0], parts[1], parts[2], parts[3], parts[4]))
  }

  lemma SplitMaxFacts(s: string, maxsplit: nat)
    ensures |Tokens(s)| <= maxsplit ==> SplitMax(s, maxsplit) == Tokens(s)
    ensures |Tokens(s)| > maxsplit ==>
      && |SplitMax(s, maxsplit)| == maxsplit + 1
      && SplitMax(s, maxsplit)[..maxsplit] == Tokens(s)[..maxsplit]
      && IsRemainder(SplitMax(s, maxsplit)[maxsplit], s, Tokens(s)[maxsplit..])
  {
    if |Tokens(s)| <= maxsplit {
      SplitMaxShort(s, maxsplit);
    } else {
      SplitMaxLong(s, maxsplit);
    }
  }

  /** `exclude_from_ttl_calc`: a type in the exclusion set, or an RRSIG whose
      covered type (the first token of its rdata) is in it. An RRSIG with
      no rdata token is refused, as the source fails on it. */
  function ExcludeFromTtlCalc(rrtype: string, rdata: string): (excluded: bool)
    requires rrtype == "RRSIG" ==> Tokens(rdata) != []
  {
    if rrtype in ExcludeTtlTypes then true
    else if rrtype == "RRSIG" then Tokens(rdata)[0] in ExcludeTtlTypes
    else false
  }

  /** The body of `update_rr` after the split: a TSIG record only bumps the
      TSIG counter and its TTL is never read; every other record needs a
      numeric TTL and is tallied everywhere. */
  function Tally(s: ZoneStats, rec: Record): (r: Result<ZoneStats, ParseError>)
    requires rec.rrtype == "RRSIG" ==> Tokens(rec.rdata) != []
    ensures r.Ok? <==> rec.rrtype == "TSIG" || IsDecimal(rec.ttl)
    ensures r.Err? ==> r.error == InvalidTtl
    ensures rec.rrtype == "TSIG" ==> r == Ok(s.(rrTsig := s.rrTsig + 1))
  {
    if rec.rrtype == "TSIG" then Ok(s.(rrTsig := s.rrTsig + 1))
    else match ParseDecimal(rec.ttl)
      case None => Err(InvalidTtl)
      case Some(ttl) =>
        var excluded := ExcludeFromTtlCalc(rec.rrtype, rec.rdata);
        var key := RRsetKey(rec.owner, rec.rrtype, rec.rrclass);
        var nonDnssec := rec.rrtype !in DnssecTypes;
        Ok(ZoneStats(
          zone := s.zone,
          rr := s.rr + 1,
          rrNoDnssec := if nonDnssec then s.rrNoDnssec + 1 else s.rrNoDnssec,
          rrTsig := s.rrTsig,
          rrExcludeTtl := if excluded then s.rrExcludeTtl + 1 else s.rrExcludeTtl,
          owners := s.owners[rec.owner := TypesAt(s.owners, rec.owner) + [rec.rrtype]],
          types := Bump(s.types, rec.rrtype),
          rrsets := Bump(s.rrsets, key),
          rrsetsNoDnssec := if nonDnssec then Bump(s.rrsetsNoDnssec, key) else s.rrsetsNoDnssec,
          ttlMax := if !excluded && ttl > s.ttlMax then ttl else s.ttlMax,
          ttlMin := if !excluded && ttl < s.ttlMin then ttl else s.ttlMin,
          sumTtl := s.sumTtl + ttl))
  }

  /** A line `update_rr` accepts: five fields, and a numeric TTL unless the
      type is TSIG. */
  predicate WellFormed(line: string) {
    var f := Tokens(line);
    |f| >= 5 && (f[3] == "TSIG" || IsDecimal(f[1]))
  }

  /** A line holding a TSIG record. */
  predicate IsTsigLine(line: string) {
    var f := Tokens(line);
    |f| >= 5 && f[3] == "TSIG"
  }

  /** `ZoneStats.update_rr`: split the line and tally the record. It fails
      exactly on lines that are not well formed, and a TSIG line changes
      nothing but the TSIG counter, whatever its TTL field holds. */
  function UpdateRR(s: ZoneStats, line: string): (r: Result<ZoneStats, ParseError>)
    ensures r.Ok? <==> WellFormed(line)
    ensures r.Err? ==> (r.error == MalformedRecord <==> |Tokens(line)| < 5)
    ensures IsTsigLine(line) ==> r == Ok(s.(rrTsig := s.rrTsig + 1))
  {
    match ParseRecord(line)
    case Err(e) => Err(e)
    case Ok(rec) =>
      assert Tokens(rec.rdata) != [] by {
        assert |Tokens(line)[4..]| > 0;
      }
      Tally(s, rec)
  }

  /** `line.rstrip('\n')`. */
  function StripNewlines(line: string): (r: string)
    ensures |r| <= |line| && r == line[..|r|]
    ensures r == [] || r[|r| - 1] != '\n'
    ensures forall i :: |r| <= i < |line| ==> line[i] == '\n'
  {
    if line != [] && line[|line| - 1] == '\n' then StripNewlines(line[..|line| - 1]) else line
  }

  /** The driver skips empty lines and lines starting with `;`; a line of
      whitespace is not skipped. */
  predicate IsSkipped(line: string) {
    line == [] || line[0] == ';'
  }

  /** One turn of the driver loop over a raw input line. */
  function Step(s: ZoneStats, raw: string): (r: Result<ZoneStats, ParseError>) {
    var line := StripNewlines(raw);
    if IsSkipped(line) then Ok(s) else UpdateRR(s, line)
  }

  /** The driver loop: every input line in order, the first failing line
      aborting the run. */
  function Process(s: ZoneStats, lines: seq<string>): (r: Result<ZoneStats, ParseError>)
    decreases |lines|
  {
    if lines == [] then Ok(s)
    else
      match Step(s, lines[0])
      case Err(e) => Err(e)
      case Ok(s1) => Process(s1, lines[1..])
  }
}
