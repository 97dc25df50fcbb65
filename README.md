# BLAST table and CD-HIT cluster parsers, modelled in Dafny

This project models two small Python 2 scripts from a metagenomics toolbox.

- **parseBLASTtable.py** reads a tabular BLAST result (`-outfmt '7 std qlen
  slen'`). It keeps every line that passes five thresholds (`selection`). For
  each query it keeps the accepted line with the smallest e-value
  (`Result.setBestMatch`). It counts accepted lines per query in five
  dictionaries, chosen by the subject's four-letter prefix: `BAC_`/`CYA_`,
  `DIA_`, `CHY_`, `OOM_` and "misc". It then prints one of three reports:
  - the best match of every query;
  - per `-g` group, the queries whose share of hits in that group reaches
    `-p` per cent (`fraction`). `CONT` merges bacteria, chytrids and
    oomycetes with a `Counter`;
  - with `--gff3` and `--exons`, the genes of a Phytozome GFF3 file
    (`parse_gff3`, `Gene`) that have at least that many CDS features.

  A `-t` option only reports whether some line carries a known prefix
  (`tests`).
- **parseCDHITresult.py** reads a CD-HIT cluster file (`*.clstr`).
  `readCDHITtable` cuts it into (header, body) pairs. A `Cluster` parses its
  body into five parallel lists (`parse_result`). It also collects the sample
  names that prefix the member names (`__init__`) and finds its centre, the
  member marked `*` (`get_center`). `main` prints the centre of each cluster
  that has enough members (`-c`) and enough samples (`-r`).

Modules:

- `Wrappers`: `Option`.
- `PyStrings`: the Python `str` operations both scripts use, which are
  `split()`, `split(sep)`, `strip()` blankness, `lstrip(c)`, `[:n]`,
  `startswith` and `''.join`.
- `BlastTable` and `GeneModels`: parseBLASTtable.py.
- `CdHit`: parseCDHITresult.py.

How the source is represented:

- The `Result`, `Gene` and `Cluster` objects are classes whose fields the
  methods update.
- The loops that update objects or build results (`Result.AddLine` and
  `Tally`, `ParseGff3`, `ReadCDHITTable`, `ReadLines`, `CollectSamples`,
  `Cluster.GetCenter`, `BuildClusters`, `ReportCenters`) are methods with
  loop invariants. Each is proved against a function of its input, and the
  properties the scripts rely on are proved about those functions. The
  remaining loops are recursive functions (the `tests()` scan is
  `SeemsRightFormat`, the `Counter.update` merge is `CombinedCounts`) or
  comprehensions (the print loops are `ExonReport`, `BestMatchRows` and
  `GroupReport`).
- A BLAST line is a record of its query, its subject and, when present, its
  numeric columns. GFF3 and CD-HIT lines are raw text, split with the
  modelled Python operations.

Behaviour of the code that the model keeps:

- The `else` at parseBLASTtable.py:146 belongs to the `OOM_` test alone. So
  every accepted `BAC_`, `CYA_`, `DIA_` and `CHY_` line whose column 0 is
  not `#` is counted as misc too, and counts twice in its query's denominator (`ExampleLineAccepted`,
  `BacLineCountedTwice`).
- `fraction` is only called on a key of a dictionary, so its denominator is
  at least 1 (`GroupKeysHaveHits`) and it never divides by zero.
- In `tests()` the `sys.exit` after `raise` is unreachable. A file with no
  prefixed line makes `tests()` return after reading the table to its end,
  so the main loop then sees no lines (`Run`).
- The default `-p` is 1 (`DefaultPercent`).

## Model

| member | source | states |
|---|---|---|
| PyStrings.Blank | parseCDHITresult.py:108 | `not line.strip()`: every character is one of Python 2's six whitespace characters |
| PyStrings.Words | parseCDHITresult.py:112 | `s.split()`: the maximal runs of non-whitespace characters, left to right |
| PyStrings.WordsFields | parseCDHITresult.py:112-125 | every field of `split()` is non-empty and holds no whitespace |
| PyStrings.WordsEmptyIffBlank | parseCDHITresult.py:108-112 | a line has no `split()` fields exactly when `strip()` empties it, so a non-blank line has a field 0 |
| PyStrings.FindLeftmost | parseCDHITresult.py:114 | the separator search inside `split(sep)` finds the leftmost occurrence, and fails exactly when the separator does not occur |
| PyStrings.Split | parseCDHITresult.py:106 | `s.split(sep)` for a non-empty separator: the pieces between the non-overlapping leftmost occurrences, never fewer than one |
| PyStrings.SplitPiecesFree | parseCDHITresult.py:106 | no piece of `split(sep)` contains the separator |
| PyStrings.JoinSplit | parseCDHITresult.py:106 | joining the pieces of `split(sep)` with `sep` gives the string back |
| PyStrings.HeadPrefix | parseCDHITresult.py:114-116 | `split(sep)[0]` is a separator-free prefix, followed by the separator when shorter, and is the whole string exactly when the separator is absent |
| PyStrings.LStripSuffix | parseCDHITresult.py:116 | `lstrip(c)` removes exactly the leading run of `c` and leaves a suffix that does not start with `c` |
| PyStrings.LStrip | parseCDHITresult.py:116 | `s.lstrip(c)` for one character: `s` without its leading run of `c` |
| PyStrings.Concat | parseCDHITresult.py:132 | `''.join(parts)`: the parts written one after another, in order |
| PyStrings.Take | parseBLASTtable.py:110 | `s[:4]` is a prefix of `s` of length min(4, len s) |
| BlastTable.Selection | parseBLASTtable.py:83-92 | a line passes when e-value <= `-e`, alignment length >= `-a`, identity >= `-%`, query length >= `-q` and subject length >= `-s`, all five inclusive |
| BlastTable.IsBac | parseBLASTtable.py:110 | the subject's first four characters are `BAC_` or `CYA_` |
| BlastTable.IsDia | parseBLASTtable.py:119 | the subject's first four characters are `DIA_` |
| BlastTable.IsChy | parseBLASTtable.py:128 | the subject's first four characters are `CHY_` |
| BlastTable.IsOom | parseBLASTtable.py:137 | the subject's first four characters are `OOM_` |
| BlastTable.IsMisc | parseBLASTtable.py:146-147 | the `else` of the `OOM_` test: any non-`OOM_` line whose column 0 is not `#`, including `BAC_`, `CYA_`, `DIA_` and `CHY_` lines |
| BlastTable.SelectionMonotone | parseBLASTtable.py:83-92 | looser thresholds accept every line that stricter thresholds accept |
| BlastTable.PrefixGroupsExclusive | parseBLASTtable.py:110-137 | at most one of the four prefix tests matches a subject |
| BlastTable.ExampleLineAccepted | parseBLASTtable.py:110-154 | a BAC_ line passes the default thresholds as a bacterial hit and again as a misc hit, never as DIA/CHY/OOM |
| BlastTable.Increment | parseBLASTtable.py:114-117 | `d[k] += 1` or `d[k] = 1` on KeyError: `k` becomes a key, its count grows by one, no other count moves, counts stay positive |
| BlastTable.Observe | parseBLASTtable.py:50-58 | the query's entry is created, or replaced only by a strictly smaller e-value; ties keep the stored line; no other entry changes |
| BlastTable.ObserveIdempotent | parseBLASTtable.py:50-58 | offering the same line a second time changes nothing |
| BlastTable.BestFor | parseBLASTtable.py:50-58 | the entry `best_match[q]` after a sequence of lines: the running minimum of `q`'s accepted lines, replaced only on a strictly smaller e-value; it always has numeric columns and query `q` |
| BlastTable.BestForNone | parseBLASTtable.py:50-58 | there is no best match for a query exactly when none of its lines was accepted |
| BlastTable.BestForIsFirstMinimum | parseBLASTtable.py:50-58 | the best match is the first accepted line of the query, in any group, whose e-value is minimal among its accepted lines |
| BlastTable.BestMatchOrderIndependent | parseBLASTtable.py:50-58 | of two accepted lines with different e-values, the smaller is kept in either order |
| BlastTable.Count | parseBLASTtable.py:110-154 | the number of accepted lines of one group for one query, never more than the number of lines |
| BlastTable.Total | parseBLASTtable.py:60-81 | the denominator as a function of the input: the sum of the five groups' counts for the query |
| BlastTable.BacLineCountedTwice | parseBLASTtable.py:110-154 | a lone accepted BAC_ line counts once as bacterial and once as misc, so its denominator is 2 |
| BlastTable.Result.constructor | parseBLASTtable.py:42-48 | all five dictionaries and the best-match table start empty |
| BlastTable.Result.SetBestMatch | parseBLASTtable.py:50-58 | the table becomes `Observe` of the old table, and the counts are untouched |
| BlastTable.Result.PassedSelection | parseBLASTtable.py:60-81 | the sum of the five counts, a missing key counting 0. It bounds each count, and is 0 exactly when no dictionary holds the query |
| BlastTable.Result.CountIn | parseBLASTtable.py:111-117 | when `selection` passes, the table sees the line and only the dictionary of the branch's group is incremented; otherwise nothing changes |
| BlastTable.Result.AddLine | parseBLASTtable.py:110-154 | one loop iteration: every dictionary whose branch accepts the line is incremented, and the table sees the line once any branch accepts it |
| BlastTable.Tally | parseBLASTtable.py:109-154 | after the loop each dictionary holds, per query, the number of its group's accepted lines, and the table holds each query's first minimal-e-value line |
| BlastTable.TalliedTotals | parseBLASTtable.py:60-81 | a query is a key of a dictionary exactly when it has an accepted line of that group, and its denominator is the total of its five counts |
| BlastTable.RatioTest | parseBLASTtable.py:99 | `count / total * 100 >= percent` in exact real arithmetic is `count * 100 >= percent * total` (Python's double rounding is not modelled) |
| BlastTable.Fraction | parseBLASTtable.py:94-102 | passes exactly when the dictionary's share of the query's denominator, computed exactly, reaches `percent` per cent |
| BlastTable.FractionAntitone | parseBLASTtable.py:94-102 | a lower percentage passes every query a higher one passes |
| BlastTable.GroupKeysHaveHits | parseBLASTtable.py:96-99 | for every key the group reports iterate over, the denominator is at least its count, which is at least 1, so `fraction` never divides by zero |
| BlastTable.CounterUpdate | parseBLASTtable.py:208 | `Counter.update(d)`: the keys are united and each key's counts add |
| BlastTable.KeysOfAny | parseBLASTtable.py:207-208 | a key is in the merged keys exactly when some dictionary holds it |
| BlastTable.CombinedCounts | parseBLASTtable.py:206-208 | the merged counter has exactly the dictionaries' keys, and each count is the sum of that key's counts |
| BlastTable.ContCounts | parseBLASTtable.py:204-208 | the `CONT` counter: the bacterial, chytrid and oomycete dictionaries merged, in that order |
| BlastTable.CombinedThreeSum | parseBLASTtable.py:205-208 | merging three dictionaries adds up each key's three counts |
| BlastTable.CombinedThree | parseBLASTtable.py:205-208 | merging three dictionaries gives the union of their keys, with counts added |
| BlastTable.ContExcludesDiatoms | parseBLASTtable.py:203-211 | the CONT count is bacteria + chytrids + oomycetes without diatoms, over the union of their keys, and stays within the denominator |
| BlastTable.ContExample | parseBLASTtable.py:203-211 | a query with counts BAC 2, DIA 5, CHY 1, OOM 1 has a CONT count of 4: the diatoms are not merged |
| BlastTable.GroupCounts | parseBLASTtable.py:185-203 | the dictionary a `-g` name selects: BAC, DIA, CHY, OOM or the CONT merge; any other name selects none |
| BlastTable.GroupReport | parseBLASTtable.py:185-211 | a query is listed for a group exactly when it is a key of the group's dictionary and passes the `fraction` test. Unknown group names list nothing |
| BlastTable.GroupCount | parseBLASTtable.py:185-211 | the count a group report compares, read off the input alone: for BAC, DIA, CHY and OOM the query's accepted lines in that group, for CONT the sum over BAC, CHY and OOM, and 0 for any other name |
| BlastTable.GroupCountsMatch | parseBLASTtable.py:185-211 | the dictionary a group name selects counts, per query, that group's accepted input lines (CONT: the three groups' sum) |
| BlastTable.GroupReportListed | parseBLASTtable.py:185-211 | the group report of the tallied input is exactly the queries with hits in the group whose exactly computed share reaches `percent` per cent of their total |
| BlastTable.GroupReports | parseBLASTtable.py:185-211 | one list per requested group, in order, each as `GroupReportListed` states |
| BlastTable.RowOf | parseBLASTtable.py:179-182 | the printed columns of a best match: query (column 0), e-value (column 10), query length (column 12) and subject (column 1) |
| BlastTable.BestMatchRows | parseBLASTtable.py:177-182 | one row (query, e-value, query length, subject) per stored best match, and no other rows |
| BlastTable.BestMatchRowsReported | parseBLASTtable.py:177-182 | the default report of the tallied input has one row per query with an accepted line, built from its first minimal-e-value line |
| BlastTable.SeemsRightFormat | parseBLASTtable.py:213-226 | true exactly when some line's subject has one of the five recognised prefixes |
| BlastTable.Run | parseBLASTtable.py:286-291 | `-t` on a recognisable file reports the format and stops. Otherwise (with no lines left after a failed `-t`) exactly one report is produced: the exon list, the best-match rows, or one list per group, each as stated above |
| GeneModels.Gene.constructor | parseBLASTtable.py:229-230 | a new gene has no CDS |
| GeneModels.Gene.SetName | parseBLASTtable.py:232-233 | the name becomes the argument; nothing else changes |
| GeneModels.Gene.SetPacid | parseBLASTtable.py:235-236 | the identifier becomes the argument; nothing else changes |
| GeneModels.Gene.AddCds | parseBLASTtable.py:241-242 | the CDS count grows by exactly one; nothing else changes |
| GeneModels.MrnaPacids | parseBLASTtable.py:264-269 | every identifier that an `mRNA` line names is registered |
| GeneModels.MrnaPacidsFromLines | parseBLASTtable.py:264-269 | every registered identifier comes from some mRNA line |
| GeneModels.PacidOf | parseBLASTtable.py:268 | `line.split()[8].split(";")[2].split("pacid=")[1]`: the identifier of an mRNA or CDS line (also read at :274) |
| GeneModels.ParentOf | parseBLASTtable.py:267 | `line.split()[8].split(";")[4].split("Parent=")[1]`: the parent name of an mRNA line |
| GeneModels.CdsCount | parseBLASTtable.py:273-275 | the count held at the end by `gene_dict[pacid]`: the CDS lines for `pacid` after its last mRNA line |
| GeneModels.LastParent | parseBLASTtable.py:267-270 | the name held at the end by `gene_dict[pacid]` and `pacid_to_name[pacid]`: the parent given by the last mRNA line for `pacid` |
| GeneModels.RegistrySkip | parseBLASTtable.py:260-261 | a comment line, or a feature that is neither mRNA nor CDS, leaves both dictionaries as they were |
| GeneModels.RegisterMrna | parseBLASTtable.py:264-270 | an mRNA line puts a fresh gene, with its identifier and parent name, in place of any earlier one, and the registry still matches the lines read |
| GeneModels.RegisterCds | parseBLASTtable.py:273-275 | a CDS line adds one CDS to the gene registered for its identifier, and the registry still matches the lines read |
| GeneModels.ParseGff3 | parseBLASTtable.py:253-275 | one distinct fresh gene per identifier named by an mRNA line. It carries that identifier, the parent name of the identifier's last mRNA line and the number of CDS lines since that line; `pacid_to_name` holds the same name |
| GeneModels.ExonReport | parseBLASTtable.py:162-166 | exactly the genes with at least `minExons` CDS features |
| GeneModels.ExonReportAntitone | parseBLASTtable.py:162-166 | raising the minimum can only shrink the exon report |
| CdHit.IsHeader | parseCDHITresult.py:131 | a line is a cluster header exactly when it is non-empty and its first character is `>` |
| CdHit.HeaderIndices | parseCDHITresult.py:130-131 | the header positions lie within the file and are strictly increasing |
| CdHit.HeaderIndicesAreHeaders | parseCDHITresult.py:131 | every listed position holds a line starting with `>` |
| CdHit.HeaderIndicesSorted | parseCDHITresult.py:130-131 | header positions are strictly increasing |
| CdHit.HeaderIndicesComplete | parseCDHITresult.py:131 | no line starting with `>` is missed |
| CdHit.BodyEnd | parseCDHITresult.py:131-135 | a body ends after its header and no later than the end of the file |
| CdHit.ClusterTexts | parseCDHITresult.py:128-136 | exactly one pair per header line |
| CdHit.ClusterTextsHeaderLine | parseCDHITresult.py:131-133 | a header line adds one pair with an empty body and keeps the earlier pairs |
| CdHit.ClusterTextsBodyLine | parseCDHITresult.py:134-135 | any other line is appended to the last body, or dropped before the first header |
| CdHit.ReadCDHITTable | parseCDHITresult.py:128-136 | the generator yields exactly `ClusterTexts` of the file |
| CdHit.BodiesHaveNoHeaders | parseCDHITresult.py:128-136 | no body contains a header line |
| CdHit.ClusterTextsRoundTrip | parseCDHITresult.py:128-136 | a file without headers yields nothing. Otherwise the pairs, written out again, are the file from its first header on |
| CdHit.Rows | parseCDHITresult.py:106-109 | the member lines of a body: `result.split("\n")` without the lines `strip()` empties |
| CdHit.NonBlank | parseCDHITresult.py:106-109 | never more rows than lines |
| CdHit.NonBlankMembers | parseCDHITresult.py:106-109 | exactly the non-blank lines are kept |
| CdHit.NonBlankSnoc | parseCDHITresult.py:108-110 | one more line is kept exactly when it is not blank |
| CdHit.ColumnsAt | parseCDHITresult.py:112-125 | entry `k` of each list is read from member line `k` |
| CdHit.ColumnsSnoc | parseCDHITresult.py:112-125 | one more member line adds one entry to the end of every list |
| CdHit.ReadMemberLine | parseCDHITresult.py:112-125 | the five entries of a member line: field 0; field 1 before `nt,`; field 2 before `...` without leading `>`; `REF` or field 4 before `/`; `REF` or the third `/`-piece of field 4 before `%` |
| CdHit.ReadLines | parseCDHITresult.py:106-125 | the five lists are the columns of the non-blank lines, in order |
| CdHit.ReadMembers | parseCDHITresult.py:106-125 | the five lists are the columns of the body's member lines |
| CdHit.ReferenceColumns | parseCDHITresult.py:118-125 | a `*` member has `REF` as strain and identity, and an identity is `REF` exactly for a `*` member |
| CdHit.FirstRef | parseCDHITresult.py:88-93 | the index of the first reference mark, none before it, and none at all exactly when there is no mark |
| CdHit.Center | parseCDHITresult.py:88-93 | the centre of some member lines: the name beside the first reference mark, or none |
| CdHit.CenterIsFirstStar | parseCDHITresult.py:88-93 | the centre is the name of the first member marked `*`, and there is none exactly when no member is marked |
| CdHit.Distinct | parseCDHITresult.py:55-58 | the reference definition of the sample list: each element kept at its first occurrence only, never longer than the input |
| CdHit.DistinctMembers | parseCDHITresult.py:55-58 | the sample list holds no duplicate and exactly the elements of its input |
| CdHit.DistinctFirstOccurrenceOrder | parseCDHITresult.py:55-58 | the kept elements appear in the order of their first occurrences |
| CdHit.Prefixes | parseCDHITresult.py:56 | one `split(delimiter)[0]` per member name |
| CdHit.SampleList | parseCDHITresult.py:50-61 | `sample_list`: with a non-empty delimiter the distinct name prefixes in first-occurrence order, otherwise `[None]` |
| CdHit.SampleCountBounds | parseCDHITresult.py:50-61 | without a delimiter there is one (None) sample. With one, the samples are exactly the distinct name prefixes: no duplicates, at most one per member, at least one per non-empty cluster |
| CdHit.CollectSamples | parseCDHITresult.py:52-58 | the loop builds the distinct name prefixes in first-occurrence order |
| CdHit.Cluster.constructor | parseCDHITresult.py:44-61 | the lists are parsed from the body and the sample list follows the delimiter option |
| CdHit.Cluster.GetResultsNumbers | parseCDHITresult.py:70-71 | the numbers column of the member lines |
| CdHit.Cluster.GetResultsLength | parseCDHITresult.py:73-74 | the lengths column of the member lines |
| CdHit.Cluster.GetResultsSeqNames | parseCDHITresult.py:76-77 | the names column of the member lines |
| CdHit.Cluster.GetStrains | parseCDHITresult.py:79-80 | the strains column of the member lines |
| CdHit.Cluster.GetIdentities | parseCDHITresult.py:82-83 | the identities column of the member lines |
| CdHit.Cluster.GetClusterSize | parseCDHITresult.py:85-86 | the number of member lines |
| CdHit.Cluster.GetNumberOfSamples | parseCDHITresult.py:95-98 | the size of the sample list built from the member names |
| CdHit.Cluster.ParseResult | parseCDHITresult.py:100-125 | the five lists are refilled with the columns of the body's member lines; name, body and samples are kept |
| CdHit.Cluster.GetCenter | parseCDHITresult.py:88-93 | the name beside the first reference mark, or none; for a parsed cluster, its centre |
| CdHit.Passes | parseCDHITresult.py:149 | a cluster passes when its size is at least `-c` and its number of samples at least `-r` |
| CdHit.Reported | parseCDHITresult.py:141-150 | at most one printed centre per cluster, and a centre is printed exactly when some cluster built from the file's pairs passes the size and sample test and has it |
| CdHit.Chosen | parseCDHITresult.py:148-150 | never more centres than clusters |
| CdHit.ChosenMembers | parseCDHITresult.py:148-150 | a centre is printed exactly when some cluster passing both minimums has it |
| CdHit.ChosenAll | parseCDHITresult.py:148-150 | when every cluster passes, every cluster's centre is printed |
| CdHit.ReportedAll | parseCDHITresult.py:148-150 | with both minimums at their default of 1, every non-empty cluster is reported |
| CdHit.ChosenAntitone | parseCDHITresult.py:148-150 | stricter minimums print no more centres |
| CdHit.BuiltSummary | parseCDHITresult.py:143-144 | a cluster built from a pair shows `main` that pair's size, sample count and centre |
| CdHit.ObservedSummaries | parseCDHITresult.py:141-150 | the clusters built one per pair show `main` the pairs' summaries, in order |
| CdHit.BuildClusters | parseCDHITresult.py:141-144 | one cluster object per pair, in order, each parsed from its pair's body |
| CdHit.ReportCenters | parseCDHITresult.py:148-150 | the centres of the objects that pass both minimums, in order |
| CdHit.ReportClusters | parseCDHITresult.py:153-158 | the whole script prints the centres that `Reported` selects from the file's pairs |

## Left out

- Command-line parsing (`argparse`) and the `easy_install` prompt. The
  options arrive as parameters; the defaults appear as constants
  (`DefaultThresholds`, `DefaultPercent`).
- File access and printing. A file is a sequence of its lines, and a report
  is a value returned. A missing input file (`sys.exit`) is not modelled.
- Text-to-number conversion. The numeric columns of a BLAST line come
  already parsed, e-values and identities as reals. The `WellFormed`
  precondition of `BlastTable.Tally` demands all five columns of every line
  that reaches `selection`. Python would raise on a missing or non-numeric
  column only when the `and` chain at parseBLASTtable.py:84-88 gets to it:
  a line rejected at column 10 is never read further. So `WellFormed` also
  excludes some malformed lines that Python rejects without an error.
  `BlastTable.Run` demands `WellFormed` only without `-t`: with `-t` the
  main loop sees no lines, so any table is accepted. Likewise it demands
  `GffWellFormed` of a GFF3 file only when the script reaches
  `parse_gff3`: with `-t` and a table that `tests()` recognises, the script
  exits before opening the GFF3 file, so any GFF3 file is accepted.
- BlastTable.Fraction: the share is computed exactly. Python computes
  `float(i)/total*100` in IEEE doubles, which can round an exact boundary
  share just below `percent`: 29 hits of 50 at `-p 58` gives
  57.99999999999999 in Python, so the query is not printed, while the model
  lists it. `GroupReport`, `GroupReports` and `Run` inherit this; they
  agree with Python except at such boundary shares.
- BlastTable.RatioTest: relates the exact real test to the integer one; it
  says nothing about the double-precision test Python performs.
- BlastTable.GroupReportListed: states the report with the exact share of
  `Fraction`, so it too differs from Python at boundary shares such as 29 of
  50 at `-p 58`.
- CdHit.IdentityOf: keeps the CD-HIT identity as text. It does not model
  Python's `float()` on it, nor the ValueError on non-numeric text.
- Inputs that make the scripts crash are excluded by preconditions, where
  Python would stop with an exception:
  - `WellFormed` for BLAST lines (see above);
  - `GffWellFormed` for GFF3 lines: a missing column or attribute, and a
    CDS before its mRNA (`KeyError`), demanded only when the GFF3 file is
    read;
  - `BodyOk`/`AllBodiesOk` for CD-HIT member lines.
- CdHit.ReportClusters: the `-r` guard at parseCDHITresult.py:155-157 calls
  `parser.error`, but `parser` is local to `parse_args`. So the script stops
  with a NameError rather than a usage message. Either way it stops; the
  model states this as a precondition.
- Dictionary iteration order. Reports that iterate a dictionary are sets
  (`BestMatchRows`, `GroupReport`, `ExonReport`). CD-HIT centres, which come
  from a list, keep their order.
- BlastTable.Run: an `--exons` value given on the command line stays a
  string in Python 2, and a string compares greater than any integer, so
  `args.exons >= 2` then holds even for `--exons 1`. The model takes the
  option as an integer and selects the exon report when it is at least 2.
- BlastTable.SeemsRightFormat: the `line.split()[12]` read in `tests()` and
  the `raise` of its `except` are not modelled. A prefixed line with fewer
  than 13 fields would raise there; the model reports the format as right.
- A BLAST line always has a query and a subject here. A line with fewer
  than two fields, on which both `main` and `tests()` raise IndexError,
  cannot be written as a `Line`.
- `Gene.set_exon` is not modelled: it reads an attribute that is never
  set, so it always fails.
- `Gene.get_name`, `get_pacid`, `Cluster.get_name` and `get_result` have no
  modelled property; they return a field. `Gene.get_CDS_count` is
  `GetCdsCount`, which `ExonReport` uses.
- CdHit.Numbers, Lengths, SeqNames, Strains, Identities: their own contract
  states only the length. The content of each entry is stated by
  `ColumnsAt` and `ReadMemberLine`.
- CdHit.ReferenceColumns: a `REF` strain does not by itself identify the
  reference member, since a non-reference member's field 4 can start with
  `REF/`. The lemma therefore states the strain slot in one direction only.
