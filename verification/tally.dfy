/** What one call of `update_rr` does to the statistics, read off the
    line's whitespace fields, and the proof that it keeps `Valid`. */
module TallyFacts {
  import opened Outcome
  import opened Text
  import opened Sums
  import opened ZoneContent

  function Min(a: int, b: int): (m: int) { if a <= b then a else b }
  function Max(a: int, b: int): (m: int) { if a >= b then a else b }

  /** The RRset a line's record belongs to: (owner, type, class). */
  function LineKey(line: string): (key: RRsetKey)
    requires |Tokens(line)| >= 5
  {
    var f := Tokens(line);
    RRsetKey(f[0], f[3], f[2])
  }

  /** The TTL of a well-formed line that is not TSIG. */
  function LineTtl(line: string): (ttl: nat)
    requires WellFormed(line) && !IsTsigLine(line)
  {
    DecimalValue(Tokens(line)[1])
  }

  /** The exclusion rule on a line's fields: the type (fourth field) is in
      the exclusion set, or it is RRSIG and the covered type (fifth field)
      is. */
  predicate LineExcluded(line: string)
    requires |Tokens(line)| >= 5
  {
    var f := Tokens(line);
    f[3] in ExcludeTtlTypes || (f[3] == "RRSIG" && f[4] in ExcludeTtlTypes)
  }

  /** `s1` is `s` after tallying one record of RRset `key` with TTL `ttl`:
      one more record everywhere it is counted, the TTL added to the sum,
      and the TTL bounds widened to `ttl` unless it is `excluded`. */
  ghost predicate Tallied(s: ZoneStats, s1: ZoneStats, key: RRsetKey, ttl: nat, excluded: bool) {
    var dnssec := key.rrtype in DnssecTypes;
    && s1.zone == s.zone
    && s1.rrTsig == s.rrTsig
    && s1.rr == s.rr + 1
    && s1.rrNoDnssec == (if dnssec then s.rrNoDnssec else s.rrNoDnssec + 1)
    && s1.owners == s.owners[key.owner := TypesAt(s.owners, key.owner) + [key.rrtype]]
    && s1.types == Bump(s.types, key.rrtype)
    && s1.rrsets == Bump(s.rrsets, key)
    && s1.rrsetsNoDnssec == (if dnssec then s.rrsetsNoDnssec else Bump(s.rrsetsNoDnssec, key))
    && s1.sumTtl == s.sumTtl + ttl
    && s1.rrExcludeTtl == (if excluded then s.rrExcludeTtl + 1 else s.rrExcludeTtl)
    && (excluded ==> s1.ttlMin == s.ttlMin && s1.ttlMax == s.ttlMax)
    && (!excluded ==>
          && s1.ttlMin == Min(s.ttlMin, ttl)
          && s1.ttlMax == Max(s.ttlMax, ttl))
  }

  /** The exclusion test the source applies to the parsed record is the
      rule on the line's fields: the covered type of an RRSIG is the first
      token of its rdata, which is the line's fifth field. */
  lemma {:induction false} ExclusionOnLine(line: string)
    requires |Tokens(line)| >= 5
    ensures ParseRecord(line).Ok?
    ensures var rec := ParseRecord(line).value;
      && (rec.rrtype == "RRSIG" ==> Tokens(rec.rdata) != [])
      && (ExcludeFromTtlCalc(rec.rrtype, rec.rdata) <==> LineExcluded(line))
  {
    var rec := ParseRecord(line).value;
    assert Tokens(rec.rdata) == Tokens(line)[4..];
    assert Tokens(rec.rdata)[0] == Tokens(line)[4];
  }

  /** A well-formed line that is not TSIG is tallied once, under its
      (owner, type, class), with its TTL; the TTL always enters the sum, and
      enters the bounds exactly when the exclusion rule does not hold. */
  lemma UpdateTallies(s: ZoneStats, line: string)
    requires WellFormed(line) && !IsTsigLine(line)
    ensures UpdateRR(s, line).Ok?
    ensures Tallied(s, UpdateRR(s, line).value, LineKey(line), LineTtl(line), LineExcluded(line))
  {
    ExclusionOnLine(line);
    var rec := ParseRecord(line).value;
    assert rec.rrtype == Tokens(line)[3] && rec.ttl == Tokens(line)[1];
    assert RRsetKey(rec.owner, rec.rrtype, rec.rrclass) == LineKey(line);
    assert ParseDecimal(rec.ttl) == Some(LineTtl(line));
    assert UpdateRR(s, line) == Tally(s, rec);
  }

  lemma OccAppend(l: seq<string>, u: string, t: string)
    ensures Occ(l + [u], t) == Occ(l, t) + (if u == t then 1 else 0)
  {
    assert (l + [u])[..|l|] == l;
  }

  /** A type occurs in a list exactly when the list holds it. */
  lemma {:induction false} OccPositive(l: seq<string>, t: string)
    ensures Occ(l, t) > 0 <==> t in l
    decreases |l|
  {
    if l != [] {
      var init := l[..|l| - 1];
      OccPositive(init, t);
      assert l == init + [l[|l| - 1]];
    }
  }

  /** Tallying a record adds it to the occurrence count of its type in the
      owner table, and to no other type's. */
  lemma OwnerOccurrencesTallied(s: ZoneStats, s1: ZoneStats, key: RRsetKey, ttl: nat, excluded: bool, t: string)
    requires Tallied(s, s1, key, ttl, excluded)
    requires SumBy(s.owners, Occurrences(t)) == CountOf(s.types, t)
    ensures SumBy(s1.owners, Occurrences(t)) == CountOf(s1.types, t)
  {
    var w := Occurrences(t);
    var before := TypesAt(s.owners, key.owner);
    SumByStore(s.owners, w, key.owner, before + [key.rrtype]);
    OccAppend(before, key.rrtype, t);
    if key.owner !in s.owners {
      assert before + [key.rrtype] == [] + [key.rrtype];
      OccAppend([], key.rrtype, t);
    }
  }

  lemma NonDnssecPartTallied(s: ZoneStats, s1: ZoneStats, key: RRsetKey, ttl: nat, excluded: bool)
    requires Tallied(s, s1, key, ttl, excluded)
    requires s.rrsetsNoDnssec == NonDnssecPart(s.rrsets)
    ensures s1.rrsetsNoDnssec == NonDnssecPart(s1.rrsets)
  {
    var lhs, rhs := s1.rrsetsNoDnssec, NonDnssecPart(s1.rrsets);
    assert lhs.Keys == rhs.Keys;
    forall k | k in lhs
      ensures lhs[k] == rhs[k]
    {
      assert CountOf(lhs, k) == CountOf(rhs, k);
    }
  }

  /** Bumping one counter adds one to the table's total. */
  lemma BumpAddsOne<K(!new)>(m: map<K, nat>, k: K)
    ensures SumBy(Bump(m, k), Id) == SumBy(m, Id) + 1
  {
    var v: nat := CountOf(m, k) + 1;
    assert Bump(m, k) == m[k := v];
    SumByStore(m, Id, k, v);
    assert Id(v) == v;
    if k in m {
      assert Id(m[k]) == CountOf(m, k);
    }
  }

  lemma {:induction false} ConservedTallied(s: ZoneStats, s1: ZoneStats, key: RRsetKey, ttl: nat, excluded: bool)
    requires Conserved(s)
    requires Tallied(s, s1, key, ttl, excluded)
    ensures Conserved(s1)
  {
    BumpAddsOne(s.types, key.rrtype);
    BumpAddsOne(s.rrsets, key);
    BumpAddsOne(s.rrsetsNoDnssec, key);
    var before := TypesAt(s.owners, key.owner);
    SumByStore(s.owners, Len, key.owner, before + [key.rrtype]);
    forall t
      ensures SumBy(s1.owners, Occurrences(t)) == CountOf(s1.types, t)
    {
      OwnerOccurrencesTallied(s, s1, key, ttl, excluded, t);
    }
  }

  lemma {:induction false} ConsistentTallied(s: ZoneStats, s1: ZoneStats, key: RRsetKey, ttl: nat, excluded: bool)
    requires Consistent(s)
    requires Tallied(s, s1, key, ttl, excluded)
    requires key.rrtype != "TSIG"
    ensures Consistent(s1)
  {
    forall k | k in s1.rrsets
      ensures k.rrtype in s1.types && k.owner in s1.owners && k.rrtype in s1.owners[k.owner]
    {
      if k != key {
        assert k in s.rrsets;
      }
    }
    forall t | t in s1.types
      ensures s1.types[t] >= 1
    {
      assert CountOf(s1.types, t) == s1.types[t];
    }
    forall k | k in s1.rrsets
      ensures s1.rrsets[k] >= 1
    {
      assert CountOf(s1.rrsets, k) == s1.rrsets[k];
    }
  }

  lemma {:induction false} DnssecSplitTallied(s: ZoneStats, s1: ZoneStats, key: RRsetKey, ttl: nat, excluded: bool)
    requires DnssecSplit(s)
    requires Tallied(s, s1, key, ttl, excluded)
    ensures DnssecSplit(s1)
  {
    NonDnssecPartTallied(s, s1, key, ttl, excluded);
    forall t | t in s1.types && t in DnssecTypes
      ensures s1.types[t] <= s1.rr - s1.rrNoDnssec
    {
      assert CountOf(s1.types, t) == s1.types[t];
    }
    forall t | t in s1.types && t !in DnssecTypes
      ensures s1.types[t] <= s1.rrNoDnssec
    {
      assert CountOf(s1.types, t) == s1.types[t];
    }
  }

  lemma TtlBoundedTallied(s: ZoneStats, s1: ZoneStats, key: RRsetKey, ttl: nat, excluded: bool)
    requires TtlBounded(s)
    requires Tallied(s, s1, key, ttl, excluded)
    ensures TtlBounded(s1)
  {
  }

  /** Tallying a record that is not TSIG keeps every invariant. */
  lemma TalliedPreservesValid(s: ZoneStats, s1: ZoneStats, key: RRsetKey, ttl: nat, excluded: bool)
    requires Valid(s)
    requires Tallied(s, s1, key, ttl, excluded)
    requires key.rrtype != "TSIG"
    ensures Valid(s1)
  {
    ConservedTallied(s, s1, key, ttl, excluded);
    ConsistentTallied(s, s1, key, ttl, excluded);
    DnssecSplitTallied(s, s1, key, ttl, excluded);
    TtlBoundedTallied(s, s1, key, ttl, excluded);
  }

  /** A successful `update_rr` keeps every invariant. */
  lemma UpdatePreservesValid(s: ZoneStats, line: string)
    requires Valid(s)
    requires UpdateRR(s, line).Ok?
    ensures Valid(UpdateRR(s, line).value)
  {
    if !IsTsigLine(line) {
      UpdateTallies(s, line);
      TalliedPreservesValid(s, UpdateRR(s, line).value, LineKey(line), LineTtl(line), LineExcluded(line));
    }
  }
}
