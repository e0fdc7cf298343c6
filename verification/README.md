# zonecontent statistics, in Dafny

`zonecontent.py` summarises the records of a DNS zone. The records come one
presentation-format record per line, from a zone transfer or a file. This
project models the part of the tool that does the work: the `ZoneStats`
tally and the driver loop that feeds it.

- `update_rr` splits each line into owner, TTL, class, type and the rest of
  the line.
- A TSIG record only bumps the TSIG counter.
- Every other record is counted in the total, a per-type table, a
  per-owner list of types and the RRset table keyed by (owner, type,
  class). When its type is not a DNSSEC type it is also counted in the
  non-DNSSEC total and the non-DNSSEC RRset table.
- Its TTL is added to a running sum. It also widens the min/max TTL bounds,
  unless the record is excluded from them: a type in `rr_exclude_ttl`, or an
  RRSIG covering such a type.
- The driver strips trailing newlines and skips empty lines and lines starting with `;`.
  A whitespace-only line is not skipped and fails as a malformed record.
- `print_stats` then derives the report: the totals, the signed-zone
  "(minus DNSSEC)" lines, the NSEC3-adjusted name count, the TSIG line, the
  TTL minimum, maximum and truncated average, and the sorted type table.
  It marks which table rows carry the second, non-DNSSEC percentage.

Modules, one per file:

- `Outcome` (outcome.dfy): `Option` and `Result`.
- `Text` (text.dfy): Python's `str.split()` and `str.split(None, 4)`, over
  the full set of characters `str.isspace` accepts. Also decimal TTL parsing.
- `Order` (order.dfy): Python's code-point string order, and the sorted
  listing of a set of strings.
- `Sums` (sums.dfy): totals over the values of a finite map.
- `ZoneContent` (zonecontent.dfy): the constants, `ZoneStats`, `__init__`,
  `update_rr`, `exclude_from_ttl_calc`, and the driver loop. The state is an
  immutable value and each step returns a new one. Python's exceptions
  become `Err` results that abort the run.
- `TallyFacts` (tally.dfy): what one `update_rr` does, read off the line's
  fields, and the invariant `Valid` it keeps:
  - every tally counts each record exactly once;
  - the tables agree with one another;
  - the non-DNSSEC tables are the non-DNSSEC part of the full ones;
  - the TTL bounds keep their starting values until a TTL enters them.
- `FoldFacts` (fold.dfy): the whole run compared with counts read directly
  off the input lines.
- `Report` (report.dfy): `print_stats` and what the invariant guarantees
  about the report.
- `TtlFinding` (findings.dfy): the lower TTL bound as evidently intended,
  set against the one the source computes (see Findings).

## Model

| member | source | states |
|---|---|---|
| ZoneContent.Init | zonecontent.py:33-47 | a new `ZoneStats` has every counter at zero, the TTL bounds at 86400 and -1, and already satisfies the invariant `Valid` |
| ZoneContent.ParseRecord | zonecontent.py:50 | unpacking `split(None, 4)` succeeds exactly when the line has at least five whitespace-separated fields. The first four are the owner, TTL, class and type. The fifth is the rest of the line: a suffix starting at a non-blank character whose own fields are all the line's remaining fields |
| Text.TokensAreTokens | zonecontent.py:50 | every part of a full split is a non-empty run of non-whitespace, and the split is empty exactly when the line is all whitespace |
| Text.TokensSkipLeadingSpace | zonecontent.py:50 | a leading whitespace character yields no field: the split of the rest is the split of the whole |
| Text.TokenEndAfterToken | zonecontent.py:50 | a field ends at the first whitespace character after it, or at the end of the line |
| Text.TokensOfToken | zonecontent.py:50 | a run of non-whitespace splits into itself alone |
| Text.TokensSplitAtSpace | zonecontent.py:50 | a run of non-whitespace followed by whitespace is the first field, and the remaining fields are the split of what follows the whitespace; with the two lemmas above and the empty line's empty split this fixes the split of every line |
| Text.SplitMaxShort | zonecontent.py:50 | a line with at most `maxsplit` fields splits the same with and without the bound |
| Text.SplitMaxLong | zonecontent.py:50 | a line with more than `maxsplit` fields splits into its first `maxsplit` fields, then the remainder of the line (a suffix that splits into the remaining fields) |
| Text.ParseDecimal | zonecontent.py:54 | the TTL text is read as a number exactly when it is a non-empty string of decimal digits |
| Text.ParseDecimalRoundTrip | zonecontent.py:54 | reading back the decimal digits of any number gives that number |
| Text.LeadingZeroIgnored | zonecontent.py:54 | a leading zero does not change the TTL read |
| ZoneContent.Bump | zonecontent.py:64-66 | `m[k] = m.get(k, 0) + 1` adds `k` to the keys, adds one to its count and leaves every other count alone |
| ZoneContent.Tally | zonecontent.py:51-71 | after the split: a TSIG record changes only the TSIG counter and its TTL is never read; any other record fails exactly when its TTL is not a number |
| ZoneContent.UpdateRR | zonecontent.py:49-71 | `update_rr` fails exactly on lines that are not well formed; the error is "malformed" exactly when the line has fewer than five fields; a TSIG line only bumps the TSIG counter |
| ZoneContent.StripNewlines | zonecontent.py:231 | `rstrip('\n')` keeps a prefix of the line that does not end in a newline, and removes only newlines |
| TallyFacts.ExclusionOnLine | zonecontent.py:178-184 | on a parsed line the exclusion test holds exactly when the type (fourth field) is in `rr_exclude_ttl`, or the type is RRSIG and the covered type (fifth field) is; an RRSIG's rdata always has a first token |
| TallyFacts.UpdateTallies | zonecontent.py:54-71 | a well-formed non-TSIG line adds one record under its (owner, type, class). It appends the type to the owner's list and adds its TTL to the sum. When the exclusion rule does not hold it lowers the minimum to the TTL if that is smaller and raises the maximum if it is larger; otherwise it leaves both alone and counts the record as excluded |
| TallyFacts.UpdatePreservesValid | zonecontent.py:49-71 | every successful `update_rr` keeps the invariant `Valid`: the totals, type counts, RRset counts and owner lists all account for each record once, and the TTL bounds are ordered once any TTL entered them |
| TallyFacts.TalliedPreservesValid | zonecontent.py:55-71 | tallying one non-TSIG record keeps the invariant `Valid` |
| FoldFacts.ProcessSucceedsIff | zonecontent.py:230-234 | the run gets through its input exactly when every line is skipped or well formed |
| FoldFacts.ProcessFailsAtFirstBadLine | zonecontent.py:230-234 | a failed run stops at the first line that is neither skipped nor well formed, and reports a malformed record exactly when that line has fewer than five fields |
| FoldFacts.ProcessPreservesValid | zonecontent.py:230-234 | every successful run keeps the invariant `Valid` |
| FoldFacts.StepCases | zonecontent.py:231-234 | a skipped line changes nothing, a TSIG line bumps only the TSIG counter, and any other accepted line is tallied |
| FoldFacts.ProcessCounters | zonecontent.py:51-69 | after a run: the total is the number of non-TSIG record lines, and the TSIG count the number of TSIG lines. The non-DNSSEC total, excluded count and TTL sum are likewise the counts read off the input lines |
| FoldFacts.ProcessTypeCounts | zonecontent.py:64 | after a run each type's count is the number of record lines of that type |
| FoldFacts.ProcessTypePresent | zonecontent.py:64 | after a run a type is in the type table exactly when it was there before or some record line has that type |
| FoldFacts.RunTypePresent | zonecontent.py:64 | after a run from a fresh `ZoneStats` a type is in the type table exactly when some record line has that type |
| FoldFacts.StepRRsetKeys | zonecontent.py:65-66 | one step adds exactly the line's (owner, type, class) to the RRset table's keys, and nothing for other lines |
| FoldFacts.StepOwnerKeys | zonecontent.py:63 | one step adds exactly the line's owner to the owner table's keys, and nothing for other lines |
| FoldFacts.ProcessRRsetKeys | zonecontent.py:65-66 | after a run the RRset table's keys are exactly the (owner, type, class) triples of the record lines |
| FoldFacts.ProcessOwnerKeys | zonecontent.py:63 | after a run the owner table's keys are exactly the owner names of the record lines |
| FoldFacts.StepTtl | zonecontent.py:56-60 | one step takes the minimum of the lower bound and the TTL of a line that enters the bounds, and the maximum of the upper bound and that TTL; any other line leaves them alone |
| FoldFacts.BoundingTtlsMembers | zonecontent.py:56 | the TTLs collected from the input are exactly the TTLs of lines entering the bounds, and there are none exactly when no line enters them |
| FoldFacts.LowerFold | zonecontent.py:59-60 | lowering a start value by each smaller TTL in turn ends at or below the start and every TTL, and at the start or one of the TTLs |
| FoldFacts.UpperFold | zonecontent.py:57-58 | raising a start value by each larger TTL in turn ends at or above the start and every TTL, and at the start or one of the TTLs |
| FoldFacts.ProcessTtlFolds | zonecontent.py:56-60 | a run's final lower and upper bounds are the starting bounds folded with the TTLs of the lines entering them, in input order |
| FoldFacts.ProcessTtlBounds | zonecontent.py:56-60 | after a run the bounds bracket the TTL of every line entering them; the lower bound never moves up and the upper one never down; each is such a TTL unless it kept its value |
| Order.SortedElements | zonecontent.py:103 | the sorted listing of a set has each member exactly once, in strictly ascending code-point order |
| Order.AscendingUnique | zonecontent.py:103 | two strictly ascending listings of the same members are equal, so the sorted order is the only one |
| Order.LessTotal | zonecontent.py:103 | any two different strings are ordered one way or the other |
| Order.LessTransitive | zonecontent.py:103 | the string order is transitive |
| Report.TypeTable | zonecontent.py:103-112 | the table has one row per type, sorted by type. A row carries the second percentage exactly when the zone is signed and the type is not a DNSSEC type |
| Report.TypeTableCounts | zonecontent.py:103 | each row of the table is a type seen, with its count |
| Report.TypeTableCovers | zonecontent.py:103 | every type seen has a row |
| Report.TruncatedAverage | zonecontent.py:96 | the TTL average is the largest whole number of records that fits in the TTL sum: `avg * rr <= sum < (avg + 1) * rr` |
| Report.PrintStats | zonecontent.py:73-112 | the report is only "no zone data" exactly when no record was tallied. Signed means NSEC or NSEC3 is present. The "(minus DNSSEC)" lines appear exactly for a signed zone and show the non-DNSSEC record count and the number of non-DNSSEC RRsets. The adjusted name line appears exactly when NSEC3 is present and shows the owner count less the NSEC3 count. The TSIG line appears exactly when a TSIG was seen and shows the TSIG count. The TTL bounds are the tallied ones |
| Report.TableAddsUp | zonecontent.py:103-104 | the counts of the type table add up to the total record count |
| Report.RowsWithinTotal | zonecontent.py:104 | no row counts more records than the total, so no first percentage exceeds 100 |
| Report.DistinctCountsBounded | zonecontent.py:84-88 | distinct RRsets and distinct names never outnumber the records, and the non-DNSSEC RRsets never outnumber the RRsets |
| Report.NonDnssecColumnWellDefined | zonecontent.py:105-110 | a signed zone's non-DNSSEC total is below its total; every row with the second percentage counts between one record and that non-DNSSEC total, so its divisor is never zero |
| Report.TtlBoundsReported | zonecontent.py:94-95 | the reported minimum is at most the maximum exactly when some TTL entered the bounds; when every record is excluded the report shows 86400 and -1 |
| Report.OwnersWithoutNsec3 | zonecontent.py:91 | if no owner holds two NSEC3 records, the owner count minus the NSEC3 count equals the number of owners without NSEC3 |
| Report.AdjustedNamesExact | zonecontent.py:89-91 | the reported "Total Names (minus DNSSEC)" is exactly the number of owners without NSEC3, when no owner holds two NSEC3 records |
| Report.SummaryTotals | zonecontent.py:75-93 | over a whole run: "no zone data" exactly when the input holds no non-TSIG record. The total and non-DNSSEC total are the counts of the input's record lines. The TSIG line appears exactly when the input has a TSIG line and shows the number of TSIG lines, and the zone is signed exactly when the input has an NSEC or NSEC3 line |
| Report.SummaryTypeCounts | zonecontent.py:103-107 | over a whole run each row of the type table counts exactly the input's record lines of its type |
| Report.SummaryTtlRange | zonecontent.py:46-60 | over a whole run in which some line enters the TTL bounds, the reported maximum is the greatest of those lines' TTLs, and the reported minimum is the least of them or 86400, whichever is smaller |
| TtlFinding.CorrectedLowerBound | zonecontent.py:46-60 | the intended lower bound over the TTLs entering the bounds is one of them and at most each of them; it is 86400 when there are none, and otherwise 86400 only when one of them is 86400 (corrected, see Findings) |
| TtlFinding.CorrectedMinIsLeast | zonecontent.py:46-60 | over the lines of a zone the corrected bound is the TTL of a line entering the bounds and at most the TTL of every such line |
| TtlFinding.LongTtlsReportSentinel | zonecontent.py:46-60 | when every TTL entering the bounds exceeds a day, the run reports a minimum of 86400, the TTL of no such line and below the corrected bound |
| TtlFinding.TwoDayDelegation | zonecontent.py:46-60 | with one two-day TTL the source's fold gives 86400, while the corrected bound is 172800 |

## Left out

- `process_args`, `usage`, `print_header` and the elapsed-time lines are command-line handling and clock reads.
- `make_dig_command` and `get_input_stream` run `dig` or open a file. The model takes the input as a sequence of lines.
- Decoding the input bytes (`line.decode()`) is left out. Lines are modelled as already-decoded strings, and a decoding failure is not modelled.
- The printing itself: the thousands separators, column widths and the floating-point percentages. Which rows get the second percentage column is modelled.
- Text.ParseDecimal: accepts only ASCII decimal digits. Python's `int()` also accepts a sign, `_` separators and non-ASCII digits. Lines with such TTLs, negative TTLs among them, fail in the model where the source tallies them. The invariant that bounds are non-negative relies on this. In the other direction, CPython's `int()` by default refuses a digit string longer than 4300 characters, which the model reads; so `ZoneContent.UpdateRR` "fails exactly" on non-numeric TTLs only up to that limit.
- Report.TruncatedAverage: uses exact integer division. The source divides in floating point and truncates, which can differ once the TTL sum exceeds 2^53. The source also raises `OverflowError` once the sum is beyond the floating-point range; the model always reports an average.
- ZoneContent.ExcludeFromTtlCalc: requires that an RRSIG's rdata has a first token. The source raises `IndexError` otherwise. `update_rr` never passes such rdata, because the fifth field of `split(None, 4)` is never blank (`TallyFacts.ExclusionOnLine`).
- Python exceptions (a short line, a non-numeric TTL) end the source program. The model returns an `Err` that stops the run, and the report is not produced.
- zonecontent.py has no wildcard counter, delegation table, or type or wildcard filter mode, and does not add a trailing dot to the zone name. None of these is modelled.
- The `--verbose` option has no effect in the source and is not modelled.

## Findings

| source | as written | input that shows it | evidently intended | confidence | as-written member | corrected member |
|---|---|---|---|---|---|---|
| zonecontent.py:46-60 | `ttl_min` starts at 86400 and only a smaller TTL lowers it | a zone whose only line is `example. 172800 IN NS ns1.example.` reports a minimum TTL of 86400 and a maximum of 172800 | the minimum is the least TTL that enters the bounds. 86400 is a starting value meant to lie above every TTL, but TTLs of two days and more are common for delegations | high; not executed | TtlFinding.LongTtlsReportSentinel | TtlFinding.CorrectedLowerBound |

The model of the tool follows the source as written: `ZoneContent.Tally`
lowers the minimum only when a TTL is below it.

The as-written half:

- `FoldFacts.ProcessTtlFolds` shows the run's minimum is 86400 lowered by
  each smaller TTL in turn, and `Report.SummaryTtlRange` that the reported
  minimum is the least TTL or 86400, whichever is smaller.
- `TtlFinding.LongTtlsReportSentinel` proves that when every TTL entering
  the bounds exceeds a day, the run reports 86400, the TTL of no record and
  below the corrected bound.
- `TtlFinding.TwoDayDelegation` is the one-record instance of the fold.

The corrected half:

- `TtlFinding.CorrectedLowerBound` seeds the same fold with the first TTL
  that enters the bounds instead of 86400. It is 86400 when none does,
  and otherwise only when some such TTL is 86400.
- `TtlFinding.CorrectedMinIsLeast` proves that over the lines of a zone it
  is the least TTL of a line entering the bounds.
