/** The driver loop over a whole input, related to tallies read directly
    off the input lines: which inputs the run accepts, and what each
    counter and table holds at the end of it. */
module FoldFacts {
  import opened Outcome
  import opened Text
  import opened Sums
  import opened ZoneContent
  import opened TallyFacts

  /** A raw line the driver hands to `update_rr`. */
  predicate IsRecordLine(raw: string) {
    !IsSkipped(StripNewlines(raw))
  }

  /** A raw line the run gets past: skipped, or a well-formed record. */
  predicate Acceptable(raw: string) {
    var line := StripNewlines(raw);
    IsSkipped(line) || WellFormed(line)
  }

  /** A raw line that is tallied as a (non-TSIG) record. */
  predicate Counted(raw: string) {
    var line := StripNewlines(raw);
    !IsSkipped(line) && WellFormed(line) && !IsTsigLine(line)
  }

  /** A raw line holding a TSIG record. */
  predicate IsTsig(raw: string) {
    var line := StripNewlines(raw);
    !IsSkipped(line) && IsTsigLine(line)
  }

  /** Number of TSIG lines. */
  function NumTsig(lines: seq<string>): (n: nat) {
    if lines == [] then 0 else (if IsTsig(lines[0]) then 1 else 0) + NumTsig(lines[1..])
  }

  /** Number of tallied record lines. */
  function NumRecords(lines: seq<string>): (n: nat) {
    if lines == [] then 0 else (if Counted(lines[0]) then 1 else 0) + NumRecords(lines[1..])
  }

  /** Number of tallied record lines of type `t`. */
  function NumOfType(lines: seq<string>, t: string): (n: nat) {
    if lines == [] then 0
    else
      var here := Counted(lines[0]) && Tokens(StripNewlines(lines[0]))[3] == t;
      (if here then 1 else 0) + NumOfType(lines[1..], t)
  }

  /** Number of tallied record lines of type outside the DNSSEC types. */
  function NumNonDnssec(lines: seq<string>): (n: nat) {
    if lines == [] then 0
    else
      var here := Counted(lines[0]) && Tokens(StripNewlines(lines[0]))[3] !in DnssecTypes;
      (if here then 1 else 0) + NumNonDnssec(lines[1..])
  }

  /** Number of tallied record lines the TTL exclusion rule holds for. */
  function NumExcluded(lines: seq<string>): (n: nat) {
    if lines == [] then 0
    else
      var here := Counted(lines[0]) && LineExcluded(StripNewlines(lines[0]));
      (if here then 1 else 0) + NumExcluded(lines[1..])
  }

  /** Sum of the TTLs of the tallied record lines. */
  function TtlTotal(lines: seq<string>): (total: nat) {
    if lines == [] then 0
    else
      (if Counted(lines[0]) then LineTtl(StripNewlines(lines[0])) else 0) + TtlTotal(lines[1..])
  }

  /** The RRsets of the tallied record lines. */
  function KeysOf(lines: seq<string>): (keys: set<RRsetKey>) {
    if lines == [] then {}
    else (if Counted(lines[0]) then {LineKey(StripNewlines(lines[0]))} else {}) + KeysOf(lines[1..])
  }

  /** The owner names of the tallied record lines. */
  function OwnersOf(lines: seq<string>): (owners: set<string>) {
    if lines == [] then {}
    else (if Counted(lines[0]) then {Tokens(StripNewlines(lines[0]))[0]} else {}) + OwnersOf(lines[1..])
  }

  /** A tallied record line whose TTL enters the bounds. */
  predicate Bounding(raw: string) {
    Counted(raw) && !LineExcluded(StripNewlines(raw))
  }

  /** The run gets through its whole input exactly when every line is
      skipped or well formed. */
  lemma {:induction false} ProcessSucceedsIff(s: ZoneStats, lines: seq<string>)
    ensures Process(s, lines).Ok? <==> forall i :: 0 <= i < |lines| ==> Acceptable(lines[i])
    decreases |lines|
  {
    if lines != [] {
      match Step(s, lines[0])
      case Err(_) =>
      case Ok(s1) =>
        ProcessSucceedsIff(s1, lines[1..]);
        assert forall i :: 1 <= i < |lines| ==> lines[i] == lines[1..][i - 1];
    }
  }

  /** A failed run stops at the first line that is neither skipped nor
      well formed, and reports a malformed record exactly when that line
      has fewer than five fields. */
  lemma {:induction false} ProcessFailsAtFirstBadLine(s: ZoneStats, lines: seq<string>)
    requires Process(s, lines).Err?
    ensures exists i :: (
      && 0 <= i < |lines|
      && (forall j :: 0 <= j < i ==> Acceptable(lines[j]))
      && !Acceptable(lines[i])
      && (Process(s, lines).error == MalformedRecord <==> |Tokens(StripNewlines(lines[i]))| < 5))
    decreases |lines|
  {
    match Step(s, lines[0])
    case Err(_) =>
      assert !Acceptable(lines[0]);
    case Ok(s1) =>
      ProcessFailsAtFirstBadLine(s1, lines[1..]);
      var i :| 0 <= i < |lines[1..]|
        && (forall j :: 0 <= j < i ==> Acceptable(lines[1..][j]))
        && !Acceptable(lines[1..][i])
        && (Process(s1, lines[1..]).error == MalformedRecord <==> |Tokens(StripNewlines(lines[1..][i]))| < 5);
      forall j | 0 <= j < i + 1
        ensures Acceptable(lines[j])
      {
        if j > 0 {
          assert lines[j] == lines[1..][j - 1];
        }
      }
      assert lines[i + 1] == lines[1..][i];
  }

  /** Every successful run keeps every invariant. */
  lemma {:induction false} ProcessPreservesValid(s: ZoneStats, lines: seq<string>)
    requires Valid(s)
    requires Process(s, lines).Ok?
    ensures Valid(Process(s, lines).value)
    decreases |lines|
  {
    if lines != [] {
      var line := StripNewlines(lines[0]);
      var s1 := Step(s, lines[0]).value;
      if !IsSkipped(line) {
        UpdatePreservesValid(s, line);
      }
      ProcessPreservesValid(s1, lines[1..]);
    }
  }

  /** What one driver step does, in terms of the line's classification. */
  lemma StepCases(s: ZoneStats, raw: string)
    requires Step(s, raw).Ok?
    ensures !IsRecordLine(raw) ==> Step(s, raw).value == s
    ensures IsTsig(raw) ==> Step(s, raw).value == s.(rrTsig := s.rrTsig + 1)
    ensures Counted(raw) ==>
      var line := StripNewlines(raw);
      Tallied(s, Step(s, raw).value, LineKey(line), LineTtl(line), LineExcluded(line))
  {
    var line := StripNewlines(raw);
    if Counted(raw) {
      UpdateTallies(s, line);
    }
  }

  /** At the end of a successful run the counters hold exactly the
      tallies of the input's record lines: each non-TSIG record once in
      the total, each TSIG record once in the TSIG count, and nothing for
      skipped lines. */
  lemma {:induction false} ProcessCounters(s: ZoneStats, lines: seq<string>)
    requires Process(s, lines).Ok?
    ensures var s' := Process(s, lines).value;
      && s'.zone == s.zone
      && s'.rr == s.rr + NumRecords(lines)
      && s'.rrTsig == s.rrTsig + NumTsig(lines)
      && s'.rrNoDnssec == s.rrNoDnssec + NumNonDnssec(lines)
      && s'.rrExcludeTtl == s.rrExcludeTtl + NumExcluded(lines)
      && s'.sumTtl == s.sumTtl + TtlTotal(lines)
    decreases |lines|
  {
    if lines != [] {
      StepCases(s, lines[0]);
      ProcessCounters(Step(s, lines[0]).value, lines[1..]);
    }
  }

  /** At the end of a successful run each type's count is the number of
      record lines of that type. */
  lemma {:induction false} ProcessTypeCounts(s: ZoneStats, lines: seq<string>, t: string)
    requires Process(s, lines).Ok?
    ensures CountOf(Process(s, lines).value.types, t) == CountOf(s.types, t) + NumOfType(lines, t)
    decreases |lines|
  {
    if lines != [] {
      StepCases(s, lines[0]);
      ProcessTypeCounts(Step(s, lines[0]).value, lines[1..], t);
    }
  }

  /** At the end of a successful run a type is in the type table exactly
      when it was there before or some record line has that type. */
  lemma ProcessTypePresent(s: ZoneStats, lines: seq<string>, t: string)
    requires Valid(s)
    requires Process(s, lines).Ok?
    ensures t in Process(s, lines).value.types <==> CountOf(s.types, t) + NumOfType(lines, t) > 0
  {
    ProcessPreservesValid(s, lines);
    ProcessTypeCounts(s, lines, t);
  }

  /** From a fresh `ZoneStats`, a type is in the type table at the end of
      a successful run exactly when some record line has that type. */
  lemma RunTypePresent(zone: string, lines: seq<string>, t: string)
    requires Process(Init(zone), lines).Ok?
    ensures t in Process(Init(zone), lines).value.types <==> NumOfType(lines, t) > 0
  {
    ProcessTypePresent(Init(zone), lines, t);
  }

  /** One driver step adds the RRset of a tallied record line to the RRset
      table's keys, and nothing otherwise. */
  lemma StepRRsetKeys(s: ZoneStats, raw: string)
    requires Step(s, raw).Ok?
    ensures Step(s, raw).value.rrsets.Keys ==
      s.rrsets.Keys + (if Counted(raw) then {LineKey(StripNewlines(raw))} else {})
  {
    StepCases(s, raw);
    if Counted(raw) {
      assert Step(s, raw).value.rrsets == Bump(s.rrsets, LineKey(StripNewlines(raw)));
    }
  }

  lemma StoreKeys<K, V>(m: map<K, V>, k: K, v: V)
    ensures m[k := v].Keys == m.Keys + {k}
  {
  }

  /** One driver step adds the owner of a tallied record line to the owner
      table's keys, and nothing otherwise. */
  lemma StepOwnerKeys(s: ZoneStats, raw: string)
    requires Step(s, raw).Ok?
    ensures Step(s, raw).value.owners.Keys ==
      s.owners.Keys + (if Counted(raw) then {Tokens(StripNewlines(raw))[0]} else {})
  {
    StepCases(s, raw);
    if Counted(raw) {
      var key := LineKey(StripNewlines(raw));
      var types := TypesAt(s.owners, key.owner) + [key.rrtype];
      assert Step(s, raw).value.owners == s.owners[key.owner := types];
      StoreKeys(s.owners, key.owner, types);
    }
  }

  /** At the end of a successful run the RRset table holds exactly the
      RRsets of the input's records. */
  lemma {:induction false} ProcessRRsetKeys(s: ZoneStats, lines: seq<string>)
    requires Process(s, lines).Ok?
    ensures Process(s, lines).value.rrsets.Keys == s.rrsets.Keys + KeysOf(lines)
    decreases |lines|
  {
    if lines != [] {
      StepRRsetKeys(s, lines[0]);
      ProcessRRsetKeys(Step(s, lines[0]).value, lines[1..]);
    }
  }

  /** At the end of a successful run the owner table holds exactly the
      owner names of the input's records. */
  lemma {:induction false} ProcessOwnerKeys(s: ZoneStats, lines: seq<string>)
    requires Process(s, lines).Ok?
    ensures Process(s, lines).value.owners.Keys == s.owners.Keys + OwnersOf(lines)
    decreases |lines|
  {
    if lines != [] {
      StepOwnerKeys(s, lines[0]);
      ProcessOwnerKeys(Step(s, lines[0]).value, lines[1..]);
    }
  }

  /** Some line of the input enters the TTL bounds. */
  ghost predicate HasBounding(lines: seq<string>) {
    exists i :: 0 <= i < |lines| && Bounding(lines[i])
  }

  /** `v` is the TTL of a line of the input that enters the TTL bounds. */
  ghost predicate IsBoundingTtl(lines: seq<string>, v: int) {
    exists i :: 0 <= i < |lines| && Bounding(lines[i]) && LineTtl(StripNewlines(lines[i])) == v
  }

  /** What one driver step does to the TTL bounds: a line entering them
      lowers the lower bound to its TTL when that is smaller and raises the
      upper one when it is larger; any other line leaves them alone. */
  lemma StepTtl(s: ZoneStats, raw: string)
    requires Step(s, raw).Ok?
    ensures var s1 := Step(s, raw).value;
      && (!Bounding(raw) ==> s1.ttlMin == s.ttlMin && s1.ttlMax == s.ttlMax)
      && (Bounding(raw) ==>
            var ttl := LineTtl(StripNewlines(raw));
            s1.ttlMin == Min(s.ttlMin, ttl) && s1.ttlMax == Max(s.ttlMax, ttl))
  {
    StepCases(s, raw);
  }

  /** The TTLs of the lines that enter the TTL bounds, in input order. */
  function BoundingTtls(lines: seq<string>): (ttls: seq<nat>) {
    if lines == [] then []
    else if Bounding(lines[0]) then [LineTtl(StripNewlines(lines[0]))] + BoundingTtls(lines[1..])
    else BoundingTtls(lines[1..])
  }

  /** `BoundingTtls` holds the TTL of every line entering the bounds and
      nothing else. */
  lemma {:induction false} BoundingTtlsMembers(lines: seq<string>)
    ensures forall v :: v in BoundingTtls(lines) <==> IsBoundingTtl(lines, v)
    ensures BoundingTtls(lines) == [] <==> !HasBounding(lines)
    decreases |lines|
  {
    if lines != [] {
      var rest := lines[1..];
      BoundingTtlsMembers(rest);
      forall v | IsBoundingTtl(rest, v)
        ensures IsBoundingTtl(lines, v)
      {
        var i :| 0 <= i < |rest| && Bounding(rest[i]) && LineTtl(StripNewlines(rest[i])) == v;
        assert lines[i + 1] == rest[i];
      }
      forall v | IsBoundingTtl(lines, v) && !(Bounding(lines[0]) && v == LineTtl(StripNewlines(lines[0])))
        ensures IsBoundingTtl(rest, v)
      {
        var i :| 0 <= i < |lines| && Bounding(lines[i]) && LineTtl(StripNewlines(lines[i])) == v;
        assert i != 0 && rest[i - 1] == lines[i];
      }
      if HasBounding(lines) && !Bounding(lines[0]) {
        var i :| 0 <= i < |lines| && Bounding(lines[i]);
        assert i != 0 && Bounding(rest[i - 1]);
      }
      if Bounding(lines[0]) {
        assert IsBoundingTtl(lines, LineTtl(StripNewlines(lines[0])));
      }
    }
  }

  /** The source's lower bound: start at `lo` and take every TTL that is
      smaller, in order. The result is below the start and every TTL, and
      is one of them. */
  function LowerFold(lo: int, ttls: seq<nat>): (r: int)
    ensures r <= lo
    ensures forall x :: x in ttls ==> r <= x
    ensures r == lo || r in ttls
    decreases |ttls|
  {
    if ttls == [] then lo
    else
      var r := LowerFold(Min(lo, ttls[0]), ttls[1..]);
      assert forall x :: x in ttls ==> x == ttls[0] || x in ttls[1..];
      r
  }

  /** The source's upper bound: start at `hi` and take every TTL that is
      larger, in order. */
  function UpperFold(hi: int, ttls: seq<nat>): (r: int)
    ensures r >= hi
    ensures forall x :: x in ttls ==> r >= x
    ensures r == hi || r in ttls
    decreases |ttls|
  {
    if ttls == [] then hi
    else
      var r := UpperFold(Max(hi, ttls[0]), ttls[1..]);
      assert forall x :: x in ttls ==> x == ttls[0] || x in ttls[1..];
      r
  }

  /** A successful run folds the TTL of every line entering the bounds into
      them, in order, and nothing else. */
  lemma {:induction false} ProcessTtlFolds(s: ZoneStats, lines: seq<string>)
    requires Process(s, lines).Ok?
    ensures var s' := Process(s, lines).value;
      && s'.ttlMin == LowerFold(s.ttlMin, BoundingTtls(lines))
      && s'.ttlMax == UpperFold(s.ttlMax, BoundingTtls(lines))
    decreases |lines|
  {
    if lines != [] {
      StepTtl(s, lines[0]);
      ProcessTtlFolds(Step(s, lines[0]).value, lines[1..]);
      if Bounding(lines[0]) {
        var ttls := BoundingTtls(lines);
        assert ttls[0] == LineTtl(StripNewlines(lines[0]));
        assert ttls[1..] == BoundingTtls(lines[1..]);
      }
    }
  }

  /** At the end of a successful run the TTL bounds bracket the TTL of
      every line entering them; the lower bound never moves up and the
      upper one never down, and each is a TTL of such a line unless it kept
      its value. */
  lemma ProcessTtlBounds(s: ZoneStats, lines: seq<string>)
    requires Process(s, lines).Ok?
    ensures var s' := Process(s, lines).value;
      && (forall i :: 0 <= i < |lines| && Bounding(lines[i]) ==>
            s'.ttlMin <= LineTtl(StripNewlines(lines[i])) <= s'.ttlMax)
      && s'.ttlMin <= s.ttlMin
      && s'.ttlMax >= s.ttlMax
      && (s'.ttlMin == s.ttlMin || IsBoundingTtl(lines, s'.ttlMin))
      && (s'.ttlMax == s.ttlMax || IsBoundingTtl(lines, s'.ttlMax))
  {
    ProcessTtlFolds(s, lines);
    BoundingTtlsMembers(lines);
    forall i | 0 <= i < |lines| && Bounding(lines[i])
      ensures LineTtl(StripNewlines(lines[i])) in BoundingTtls(lines)
    {
      assert IsBoundingTtl(lines, LineTtl(StripNewlines(lines[i])));
    }
  }
}
