/** The classification, filtering, best-hit and group-count engine of
    parseBLASTtable.py, over tabular alignment lines
    (`-outfmt '7 std qlen slen'`). A line is given already split: its query
    (column 0), its subject (column 1) and, when the line carries them, its
    numeric columns already parsed. */
module BlastTable {
  import opened Wrappers
  import opened PyStrings
  import GeneModels

  /** Columns 2 (identity %), 3 (alignment length), 10 (e-value), 12 (query
      length) and 13 (subject length) of one line. */
  datatype Stats = Stats(identity: real, alignLength: int, evalue: real, qlen: int, slen: int)

  /** One table line: column 0, column 1 and, if present and numeric, the
      columns of `Stats`. */
  datatype Line = Line(query: string, subject: string, stats: Option<Stats>)

  /** The five inclusive thresholds of `selection`. */
  datatype Thresholds = Thresholds(evalue: real, aLength: int, identity: real, qLength: int, sLength: int)

  /** The command-line defaults: `-e 100.0 -a 0 -% 0.0 -q 0 -s 0`. */
  const DefaultThresholds := Thresholds(100.0, 0, 0.0, 0, 0)

  /** The default `-p 1`. */
  const DefaultPercent := 1

  /** `selection(line, result)`: every one of the five comparisons holds. */
  predicate Selection(s: Stats, th: Thresholds) {
    && s.evalue <= th.evalue
    && s.alignLength >= th.aLength
    && s.identity >= th.identity
    && s.qlen >= th.qLength
    && s.slen >= th.sLength
  }

  /** Looser thresholds accept every line that stricter ones accept. */
  lemma SelectionMonotone(s: Stats, strict: Thresholds, loose: Thresholds)
    requires loose.evalue >= strict.evalue && loose.identity <= strict.identity
    requires loose.aLength <= strict.aLength && loose.qLength <= strict.qLength && loose.sLength <= strict.sLength
    ensures Selection(s, strict) ==> Selection(s, loose)
  {
  }

  // ---------------------------------------------------------------------
  // Classification by the first four characters of the subject

  function Prefix(l: Line): string {
    Take(l.subject, 4)
  }

  predicate IsBac(l: Line) { Prefix(l) == "BAC_" || Prefix(l) == "CYA_" }
  predicate IsDia(l: Line) { Prefix(l) == "DIA_" }
  predicate IsChy(l: Line) { Prefix(l) == "CHY_" }
  predicate IsOom(l: Line) { Prefix(l) == "OOM_" }

  /** The `else` of the `OOM_` test: every non-`OOM_` line whose column 0 is
      not `#`, including `BAC_`, `CYA_`, `DIA_` and `CHY_` lines. */
  predicate IsMisc(l: Line) { !IsOom(l) && l.query != "#" }

  /** The five dictionaries of `Result`. */
  datatype Group = Bac | Dia | Chy | Oom | Misc

  predicate InGroup(l: Line, g: Group) {
    match g
    case Bac => IsBac(l)
    case Dia => IsDia(l)
    case Chy => IsChy(l)
    case Oom => IsOom(l)
    case Misc => IsMisc(l)
  }

  /** At most one of the four prefix groups matches a subject. */
  lemma PrefixGroupsExclusive(l: Line)
    ensures (IsBac(l) ==> !IsDia(l) && !IsChy(l) && !IsOom(l))
    ensures (IsDia(l) ==> !IsChy(l) && !IsOom(l))
    ensures (IsChy(l) ==> !IsOom(l))
  {
  }

  /** `selection` is evaluated for this line by one of the five branches. */
  predicate Reaches(l: Line) {
    IsBac(l) || IsDia(l) || IsChy(l) || IsOom(l) || IsMisc(l)
  }

  /** A line whose numeric columns `selection` reads has them. */
  predicate WellFormed(l: Line) {
    Reaches(l) ==> l.stats.Some?
  }

  /** The line passes `selection` inside the branch of group `g`. */
  predicate Accepted(l: Line, g: Group, th: Thresholds) {
    InGroup(l, g) && l.stats.Some? && Selection(l.stats.value, th)
  }

  /** The line passes `selection` inside some branch, so `setBestMatch` sees it. */
  predicate AcceptedAny(l: Line, th: Thresholds) {
    Reaches(l) && l.stats.Some? && Selection(l.stats.value, th)
  }

  /** The line `Q1 BAC_001 95.0 300 2 1 1 300 1 300 1e-50 100 300 400`
      passes the defaults as a BAC hit, and the `else` branch counts it a
      second time as a misc hit. */
  lemma ExampleLineAccepted()
    ensures var l := Line("Q1", "BAC_001", Some(Stats(95.0, 300, 0.00000000000000000000000000000000000000000000000001, 300, 400)));
      Accepted(l, Bac, DefaultThresholds) && Accepted(l, Misc, DefaultThresholds) &&
      !Accepted(l, Dia, DefaultThresholds) && !Accepted(l, Chy, DefaultThresholds) &&
      !Accepted(l, Oom, DefaultThresholds)
  {
    var l := Line("Q1", "BAC_001", Some(Stats(95.0, 300, 0.00000000000000000000000000000000000000000000000001, 300, 400)));
    assert Prefix(l) == "BAC_";
  }

  // ---------------------------------------------------------------------
  // Counting dictionaries

  /** Python's `d.get(k, 0)` for the count dictionaries. */
  function Get(m: map<string, nat>, k: string): nat {
    if k in m then m[k] else 0
  }

  /** Every stored count is at least 1. */
  predicate Positive(m: map<string, nat>) {
    forall k :: k in m ==> m[k] >= 1
  }

  /** `d[k] += 1`, or `d[k] = 1` on `KeyError`: the count of `k` grows by
      exactly one, `k` becomes a key, and no other count moves. */
  function Increment(m: map<string, nat>, k: string): (m': map<string, nat>)
    ensures m'.Keys == m.Keys + {k}
    ensures Get(m', k) == Get(m, k) + 1
    ensures forall j :: j != k ==> Get(m', j) == Get(m, j)
    ensures Positive(m) ==> Positive(m')
  {
    m[k := Get(m, k) + 1]
  }

  // ---------------------------------------------------------------------
  // Best match table

  function Ev(l: Line): real
    requires l.stats.Some?
  {
    l.stats.value.evalue
  }

  /** Every stored line has its numeric columns and is stored under its own query. */
  predicate TableOk(t: map<string, Line>) {
    forall k :: k in t ==> t[k].stats.Some? && t[k].query == k
  }

  /** `setBestMatch(line)` as a function of the table: the entry for the
      line's query is created, or replaced only by a strictly smaller
      e-value; ties keep the stored line; no other entry changes. */
  function Observe(t: map<string, Line>, line: Line): (t': map<string, Line>)
    requires TableOk(t) && line.stats.Some?
    ensures TableOk(t')
    ensures line.query in t'
    ensures t'[line.query] == line || (line.query in t && t'[line.query] == t[line.query] && Ev(t[line.query]) <= Ev(line))
    ensures line.query !in t ==> t'[line.query] == line
    ensures line.query in t && Ev(t[line.query]) <= Ev(line) ==> t' == t
    ensures line.query in t && Ev(t[line.query]) > Ev(line) ==> t'[line.query] == line
    ensures forall k :: k != line.query ==> (k in t' <==> k in t) && (k in t ==> t'[k] == t[k])
  {
    if line.query in t && !(Ev(t[line.query]) > Ev(line)) then t else t[line.query := line]
  }

  /** Offering the same line twice changes nothing the second time. */
  lemma ObserveIdempotent(t: map<string, Line>, line: Line)
    requires TableOk(t) && line.stats.Some?
    ensures Observe(Observe(t, line), line) == Observe(t, line)
  {
  }

  function Lookup(t: map<string, Line>, k: string): Option<Line> {
    if k in t then Some(t[k]) else None
  }

  /** The line passes and belongs to query `q`. */
  predicate AcceptedFor(l: Line, q: string, th: Thresholds) {
    l.query == q && AcceptedAny(l, th)
  }

  /** The entry `best_match[q]` after the lines `lines`: the running minimum
      of the accepted lines for `q`, replaced only on a strictly smaller
      e-value. */
  function BestFor(lines: seq<Line>, q: string, th: Thresholds): (b: Option<Line>)
    ensures b.Some? ==> b.value.stats.Some? && b.value.query == q
  {
    if |lines| == 0 then None
    else
      var last := lines[|lines| - 1];
      var before := BestFor(lines[..|lines| - 1], q, th);
      if !AcceptedFor(last, q, th) then before
      else if before.None? || Ev(before.value) > Ev(last) then Some(last)
      else before
  }

  /** `lines[i]` is the first accepted line for `q` with the minimal
      e-value among all accepted lines for `q`. */
  ghost predicate FirstMinimumAt(lines: seq<Line>, q: string, th: Thresholds, i: int) {
    && 0 <= i < |lines| && AcceptedFor(lines[i], q, th)
    && (forall j :: 0 <= j < |lines| && AcceptedFor(lines[j], q, th) ==> Ev(lines[i]) <= Ev(lines[j]))
    && (forall j :: 0 <= j < i && AcceptedFor(lines[j], q, th) ==> Ev(lines[j]) > Ev(lines[i]))
  }

  /** One more line either keeps the first minimum or, when it is accepted
      with a strictly smaller e-value, becomes it. */
  lemma FirstMinimumExtend(lines: seq<Line>, q: string, th: Thresholds, i: int)
    requires |lines| > 0 && FirstMinimumAt(lines[..|lines| - 1], q, th, i)
    ensures var last := lines[|lines| - 1];
      if AcceptedFor(last, q, th) && Ev(lines[i]) > Ev(last) then FirstMinimumAt(lines, q, th, |lines| - 1)
      else FirstMinimumAt(lines, q, th, i)
  {
    var n := |lines| - 1;
    assert forall j :: 0 <= j < n ==> lines[..n][j] == lines[j];
  }

  /** `BestFor` finds nothing exactly when no line is accepted for `q`. */
  lemma {:induction false} BestForNone(lines: seq<Line>, q: string, th: Thresholds)
    ensures BestFor(lines, q, th).None? <==> forall j :: 0 <= j < |lines| ==> !AcceptedFor(lines[j], q, th)
  {
    if |lines| > 0 {
      var n := |lines| - 1;
      var pre := lines[..n];
      BestForNone(pre, q, th);
      assert forall j :: 0 <= j < n ==> pre[j] == lines[j];
    }
  }

  /** The only accepted line, at the end, is the first minimum. */
  lemma FirstMinimumLone(lines: seq<Line>, q: string, th: Thresholds)
    requires |lines| > 0 && AcceptedFor(lines[|lines| - 1], q, th)
    requires forall j :: 0 <= j < |lines| - 1 ==> !AcceptedFor(lines[j], q, th)
    ensures FirstMinimumAt(lines, q, th, |lines| - 1)
  {
  }

  /** An index witnessing `FirstMinimumAt` for the value `BestFor` computes. */
  lemma {:induction false} BestForWitness(lines: seq<Line>, q: string, th: Thresholds) returns (i: int)
    ensures BestFor(lines, q, th).Some? ==> FirstMinimumAt(lines, q, th, i) && lines[i] == BestFor(lines, q, th).value
  {
    i := 0;
    if |lines| > 0 {
      var n := |lines| - 1;
      var pre := lines[..n];
      var last := lines[n];
      var k := BestForWitness(pre, q, th);
      var before := BestFor(pre, q, th);
      if before.None? {
        i := n;
        if AcceptedFor(last, q, th) {
          BestForNone(pre, q, th);
          assert forall j :: 0 <= j < n ==> pre[j] == lines[j];
          FirstMinimumLone(lines, q, th);
        }
      } else {
        FirstMinimumExtend(lines, q, th, k);
        assert pre[k] == lines[k];
        i := if AcceptedFor(last, q, th) && Ev(lines[k]) > Ev(last) then n else k;
      }
    }
  }

  /** `best_match[q]` is the FIRST accepted line for `q` that has the
      minimal e-value among all accepted lines for `q`, whatever their
      group; and there is an entry exactly when some line was accepted. */
  lemma BestForIsFirstMinimum(lines: seq<Line>, q: string, th: Thresholds)
    ensures BestFor(lines, q, th).None? <==> forall j :: 0 <= j < |lines| ==> !AcceptedFor(lines[j], q, th)
    ensures BestFor(lines, q, th).Some? ==>
      exists i :: FirstMinimumAt(lines, q, th, i) && lines[i] == BestFor(lines, q, th).value
  {
    BestForNone(lines, q, th);
    var i := BestForWitness(lines, q, th);
  }

  /** Two accepted lines for one query keep the smaller e-value in either
      order (1e-10 then 1e-50 keeps 1e-50, and so does the reverse). */
  lemma BestMatchOrderIndependent(a: Line, b: Line, th: Thresholds)
    requires AcceptedFor(a, a.query, th) && AcceptedFor(b, a.query, th)
    requires Ev(b) < Ev(a)
    ensures BestFor([a, b], a.query, th) == Some(b)
    ensures BestFor([b, a], a.query, th) == Some(b)
  {
    assert [a, b][..1] == [a] && [b, a][..1] == [b];
    assert [a][..0] == [] && [b][..0] == [];
    assert BestFor([a], a.query, th) == Some(a);
    assert BestFor([b], a.query, th) == Some(b);
  }

  // ---------------------------------------------------------------------
  // Counts as functions of the input

  /** 1 when `l` is an accepted line of group `g` for query `q`. */
  function Hit(l: Line, g: Group, q: string, th: Thresholds): nat {
    if l.query == q && Accepted(l, g, th) then 1 else 0
  }

  /** The number of accepted lines of group `g` for query `q`. */
  function Count(lines: seq<Line>, g: Group, q: string, th: Thresholds): (n: nat)
    ensures n <= |lines|
  {
    if |lines| == 0 then 0
    else Count(lines[..|lines| - 1], g, q, th) + Hit(lines[|lines| - 1], g, q, th)
  }

  /** The denominator `passedSelection(q)` as a function of the input. */
  function Total(lines: seq<Line>, q: string, th: Thresholds): nat {
    Count(lines, Bac, q, th) + Count(lines, Dia, q, th) + Count(lines, Chy, q, th)
      + Count(lines, Oom, q, th) + Count(lines, Misc, q, th)
  }

  /** An accepted `BAC_` line adds one to the bacterial count and one to the
      misc count, so it contributes two to the denominator: a query whose
      only hit is one such line has a bacterial fraction of 50%. */
  lemma BacLineCountedTwice(l: Line, th: Thresholds)
    requires IsBac(l) && l.query != "#" && l.stats.Some? && Selection(l.stats.value, th)
    ensures Count([l], Bac, l.query, th) == 1 && Count([l], Misc, l.query, th) == 1
    ensures Total([l], l.query, th) == 2
  {
    assert [l][..0] == [];
    PrefixGroupsExclusive(l);
  }

  // ---------------------------------------------------------------------
  // The Result object

  class Result {
    var bact: map<string, nat>
    var diatom: map<string, nat>
    var chytrid: map<string, nat>
    var oomyc: map<string, nat>
    var misc: map<string, nat>
    var bestMatch: map<string, Line>

    ghost predicate Valid()
      reads this
    {
      Positive(bact) && Positive(diatom) && Positive(chytrid) && Positive(oomyc) && Positive(misc)
      && TableOk(bestMatch)
    }

    /** The dictionary of group `g`. */
    function Counts(g: Group): map<string, nat>
      reads this
    {
      match g
      case Bac => bact
      case Dia => diatom
      case Chy => chytrid
      case Oom => oomyc
      case Misc => misc
    }

    constructor ()
      ensures Valid()
      ensures bact == map[] && diatom == map[] && chytrid == map[] && oomyc == map[] && misc == map[]
      ensures bestMatch == map[]
    {
      bact, diatom, chytrid, oomyc, misc := map[], map[], map[], map[], map[];
      bestMatch := map[];
    }

    /** `setBestMatch(line)`: the best-match table becomes `Observe` of the
        old one; the counts are untouched. */
    method SetBestMatch(line: Line)
      requires Valid() && line.stats.Some?
      modifies this
      ensures Valid()
      ensures bestMatch == Observe(old(bestMatch), line)
      ensures bact == old(bact) && diatom == old(diatom) && chytrid == old(chytrid)
      ensures oomyc == old(oomyc) && misc == old(misc)
    {
      if line.query in bestMatch {
        if Ev(bestMatch[line.query]) > Ev(line) {
          bestMatch := bestMatch[line.query := line];
        }
      } else {
        bestMatch := bestMatch[line.query := line];
      }
    }

    /** `passedSelection(contig)`: the sum of the five counts, a missing key
        counting 0. It bounds each of them, and is 0 only for a query that no
        dictionary holds. */
    function PassedSelection(contig: string): (n: nat)
      reads this
      ensures forall g: Group :: Get(Counts(g), contig) <= n
      ensures Valid() ==> (n == 0 <==> contig !in bact && contig !in diatom && contig !in chytrid && contig !in oomyc && contig !in misc)
    {
      Get(bact, contig) + Get(diatom, contig) + Get(chytrid, contig) + Get(oomyc, contig) + Get(misc, contig)
    }

    /** The block each prefix branch of `main` repeats: when the line passes
        `selection`, the best-match table sees it and the dictionary of `g`
        counts it once more; the other dictionaries stay as they are. */
    method CountIn(g: Group, line: Line, th: Thresholds)
      requires Valid() && line.stats.Some?
      modifies this
      ensures Valid()
      ensures bestMatch == if Selection(line.stats.value, th) then Observe(old(bestMatch), line) else old(bestMatch)
      ensures bact == if g == Bac && Selection(line.stats.value, th) then Increment(old(bact), line.query) else old(bact)
      ensures diatom == if g == Dia && Selection(line.stats.value, th) then Increment(old(diatom), line.query) else old(diatom)
      ensures chytrid == if g == Chy && Selection(line.stats.value, th) then Increment(old(chytrid), line.query) else old(chytrid)
      ensures oomyc == if g == Oom && Selection(line.stats.value, th) then Increment(old(oomyc), line.query) else old(oomyc)
      ensures misc == if g == Misc && Selection(line.stats.value, th) then Increment(old(misc), line.query) else old(misc)
    {
      if Selection(line.stats.value, th) {
        SetBestMatch(line);
        match g
        case Bac => bact := Increment(bact, line.query);
        case Dia => diatom := Increment(diatom, line.query);
        case Chy => chytrid := Increment(chytrid, line.query);
        case Oom => oomyc := Increment(oomyc, line.query);
        case Misc => misc := Increment(misc, line.query);
      }
    }

    /** One iteration of the loop in `main`: the four independent prefix
        tests, the last with its `else`. Each dictionary is incremented at
        the line's query when the line is accepted in that group; the table
        sees the line once it is accepted in any branch. */
    method AddLine(line: Line, th: Thresholds)
      requires Valid() && WellFormed(line)
      modifies this
      ensures Valid()
      ensures bact == if Accepted(line, Bac, th) then Increment(old(bact), line.query) else old(bact)
      ensures diatom == if Accepted(line, Dia, th) then Increment(old(diatom), line.query) else old(diatom)
      ensures chytrid == if Accepted(line, Chy, th) then Increment(old(chytrid), line.query) else old(chytrid)
      ensures oomyc == if Accepted(line, Oom, th) then Increment(old(oomyc), line.query) else old(oomyc)
      ensures misc == if Accepted(line, Misc, th) then Increment(old(misc), line.query) else old(misc)
      ensures bestMatch == if AcceptedAny(line, th) then Observe(old(bestMatch), line) else old(bestMatch)
    {
      PrefixGroupsExclusive(line);
      ghost var t0 := bestMatch;
      if IsBac(line) {
        CountIn(Bac, line, th);
      }
      if IsDia(line) {
        if IsBac(line) { ObserveIdempotent(t0, line); }
        CountIn(Dia, line, th);
      }
      if IsChy(line) {
        CountIn(Chy, line, th);
      }
      if IsOom(line) {
        CountIn(Oom, line, th);
      } else {
        if line.query != "#" {
          if Reaches(line) && Selection(line.stats.value, th) { ObserveIdempotent(t0, line); }
          CountIn(Misc, line, th);
        }
      }
    }
  }

  /** `m` counts, per query, the accepted lines of group `g` in `lines`. */
  ghost predicate CountsMatch(m: map<string, nat>, lines: seq<Line>, g: Group, th: Thresholds) {
    forall q :: Get(m, q) == Count(lines, g, q, th)
  }

  /** `t` holds, per query, the running minimum of its accepted lines. */
  ghost predicate TableMatches(t: map<string, Line>, lines: seq<Line>, th: Thresholds) {
    forall q :: Lookup(t, q) == BestFor(lines, q, th)
  }

  /** `result` holds exactly what the counting loop computes from `lines`. */
  ghost predicate Tallied(result: Result, lines: seq<Line>, th: Thresholds)
    reads result
  {
    && result.Valid()
    && CountsMatch(result.bact, lines, Bac, th)
    && CountsMatch(result.diatom, lines, Dia, th)
    && CountsMatch(result.chytrid, lines, Chy, th)
    && CountsMatch(result.oomyc, lines, Oom, th)
    && CountsMatch(result.misc, lines, Misc, th)
    && TableMatches(result.bestMatch, lines, th)
  }

  /** One more line moves the count dictionary of `g` as `AddLine` does. */
  lemma CountStep(m: map<string, nat>, m': map<string, nat>, lines: seq<Line>, l: Line, g: Group, th: Thresholds)
    requires CountsMatch(m, lines, g, th)
    requires m' == if Accepted(l, g, th) then Increment(m, l.query) else m
    ensures CountsMatch(m', lines + [l], g, th)
  {
    assert (lines + [l])[..|lines|] == lines;
    forall q ensures Get(m', q) == Count(lines + [l], g, q, th) {
      assert Count(lines + [l], g, q, th) == Count(lines, g, q, th) + Hit(l, g, q, th);
    }
  }

  /** One more line moves the best-match table as `AddLine` does. */
  lemma BestStep(t: map<string, Line>, t': map<string, Line>, lines: seq<Line>, l: Line, th: Thresholds)
    requires TableOk(t) && TableMatches(t, lines, th)
    requires t' == if AcceptedAny(l, th) then Observe(t, l) else t
    ensures TableMatches(t', lines + [l], th)
  {
    assert (lines + [l])[..|lines|] == lines;
    forall q ensures Lookup(t', q) == BestFor(lines + [l], q, th) {
      assert BestFor(lines + [l], q, th) ==
        if !AcceptedFor(l, q, th) then BestFor(lines, q, th)
        else if BestFor(lines, q, th).None? || Ev(BestFor(lines, q, th).value) > Ev(l) then Some(l)
        else BestFor(lines, q, th);
    }
  }

  /** The counting loop of `main` (parseBLASTtable.py:109-154). */
  method Tally(lines: seq<Line>, th: Thresholds) returns (result: Result)
    requires forall i :: 0 <= i < |lines| ==> WellFormed(lines[i])
    ensures fresh(result) && Tallied(result, lines, th)
  {
    result := new Result();
    var i := 0;
    while i < |lines|
      invariant 0 <= i <= |lines|
      invariant Tallied(result, lines[..i], th)
    {
      var l := lines[i];
      ghost var pre := lines[..i];
      assert lines[..i + 1] == pre + [l];
      ghost var b, d, c, o, m, t := result.bact, result.diatom, result.chytrid, result.oomyc, result.misc, result.bestMatch;
      result.AddLine(l, th);
      CountStep(b, result.bact, pre, l, Bac, th);
      CountStep(d, result.diatom, pre, l, Dia, th);
      CountStep(c, result.chytrid, pre, l, Chy, th);
      CountStep(o, result.oomyc, pre, l, Oom, th);
      CountStep(m, result.misc, pre, l, Misc, th);
      BestStep(t, result.bestMatch, pre, l, th);
      i := i + 1;
    }
    assert lines[..i] == lines;
  }

  /** After the loop a query is a key of a dictionary exactly when it has an
      accepted line in that group, and its denominator is the sum of its
      five counts. */
  lemma TalliedTotals(result: Result, lines: seq<Line>, th: Thresholds)
    requires Tallied(result, lines, th)
    ensures forall g: Group, q :: q in result.Counts(g) <==> Count(lines, g, q, th) > 0
    ensures forall q :: result.PassedSelection(q) == Total(lines, q, th)
  {
    forall g: Group, q ensures q in result.Counts(g) <==> Count(lines, g, q, th) > 0 {
      assert CountsMatch(result.Counts(g), lines, g, th);
      var d := result.Counts(g);
      assert Get(d, q) == Count(lines, g, q, th);
      if q in d { assert d[q] >= 1; }
    }
  }

  // ---------------------------------------------------------------------
  // The ratio test

  /** `count / total * 100 >= percent` over the reals, for `total > 0`, is
      the integer test `count * 100 >= percent * total`. */
  lemma RatioTest(count: nat, total: nat, percent: int)
    requires total > 0
    ensures (count as real / total as real) * 100.0 >= percent as real <==> count * 100 >= percent * total
  {
    var t := total as real;
    var f := count as real / t;
    assert f * t == count as real;
    assert (f * 100.0) * t == (count * 100) as real;
    assert (percent as real) * t == (percent * total) as real;
    if f * 100.0 >= percent as real {
      assert (f * 100.0) * t >= (percent as real) * t;
    } else {
      assert (f * 100.0) * t < (percent as real) * t;
    }
  }

  /** `fraction(resultDict, contig, result)`: the share of the query's
      accepted hits that `resultDict` holds reaches `percent` per cent. */
  function Fraction(resultDict: map<string, nat>, contig: string, result: Result, percent: int): (pass: bool)
    reads result
    requires contig in resultDict
    requires result.PassedSelection(contig) > 0
    ensures pass <==> resultDict[contig] * 100 >= percent * result.PassedSelection(contig)
  {
    RatioTest(resultDict[contig], result.PassedSelection(contig), percent);
    (resultDict[contig] as real / result.PassedSelection(contig) as real) * 100.0 >= percent as real
  }

  /** A lower threshold passes every query a higher one passes. */
  lemma FractionAntitone(resultDict: map<string, nat>, contig: string, result: Result, lo: int, hi: int)
    requires contig in resultDict && result.PassedSelection(contig) > 0
    requires lo <= hi && Fraction(resultDict, contig, result, hi)
    ensures Fraction(resultDict, contig, result, lo)
  {
    ScaleMonotone(lo, hi, result.PassedSelection(contig));
  }

  lemma ScaleMonotone(lo: int, hi: int, t: nat)
    requires lo <= hi
    ensures lo * t <= hi * t
  {
    assert (hi - lo) * t >= 0;
  }

  /** For every key of a group dictionary the denominator is at least that
      key's count, which is at least 1: `fraction` never divides by zero. */
  lemma GroupKeysHaveHits(result: Result, g: Group)
    requires result.Valid()
    ensures forall k :: k in result.Counts(g) ==> result.PassedSelection(k) >= result.Counts(g)[k] >= 1
  {
    forall k | k in result.Counts(g) ensures result.PassedSelection(k) >= result.Counts(g)[k] >= 1 {
      assert Get(result.Counts(g), k) == result.Counts(g)[k];
    }
  }

  // ---------------------------------------------------------------------
  // The CONT merge

  /** `Counter.update(d)` on counts: the keys are united and counts add. */
  function CounterUpdate(c: map<string, nat>, d: map<string, nat>): (r: map<string, nat>)
    ensures r.Keys == c.Keys + d.Keys
    ensures forall k :: Get(r, k) == Get(c, k) + Get(d, k)
  {
    map k | k in c.Keys + d.Keys :: Get(c, k) + Get(d, k)
  }

  /** The sum over several dictionaries of the count of `k`. */
  function SumAt(dicts: seq<map<string, nat>>, k: string): nat {
    if |dicts| == 0 then 0 else SumAt(dicts[..|dicts| - 1], k) + Get(dicts[|dicts| - 1], k)
  }

  /** The keys of several dictionaries together. */
  function KeysOf(dicts: seq<map<string, nat>>): set<string> {
    if |dicts| == 0 then {} else KeysOf(dicts[..|dicts| - 1]) + dicts[|dicts| - 1].Keys
  }

  /** A key is among them exactly when some dictionary holds it. */
  lemma {:induction false} KeysOfAny(dicts: seq<map<string, nat>>, k: string)
    ensures k in KeysOf(dicts) <==> exists i :: 0 <= i < |dicts| && k in dicts[i]
  {
    if |dicts| > 0 {
      var n := |dicts| - 1;
      var pre := dicts[..n];
      KeysOfAny(pre, k);
      if k in KeysOf(dicts) {
        if k in KeysOf(pre) {
          var i :| 0 <= i < n && k in pre[i];
          assert k in dicts[i];
        } else {
          assert k in dicts[n];
        }
      } else {
        forall i | 0 <= i < |dicts| ensures k !in dicts[i] {
          if i < n { assert pre[i] == dicts[i]; }
        }
      }
    }
  }

  /** `c = Counter(); for d in dicts: c.update(d)`: the keys are those of
      the dictionaries, and a key's count is the sum of its counts. */
  function CombinedCounts(dicts: seq<map<string, nat>>): (c: map<string, nat>)
    ensures c.Keys == KeysOf(dicts)
    ensures forall k :: Get(c, k) == SumAt(dicts, k)
  {
    if |dicts| == 0 then map[]
    else CounterUpdate(CombinedCounts(dicts[..|dicts| - 1]), dicts[|dicts| - 1])
  }

  /** The `CONT` dictionary: bacteria, chytrids and oomycetes merged. */
  function ContCounts(result: Result): map<string, nat>
    reads result
  {
    CombinedCounts([result.bact, result.chytrid, result.oomyc])
  }

  /** Merging three dictionaries adds up each key's three counts. */
  lemma CombinedThreeSum(a: map<string, nat>, b: map<string, nat>, c: map<string, nat>, k: string)
    ensures Get(CombinedCounts([a, b, c]), k) == Get(a, k) + Get(b, k) + Get(c, k)
  {
    var ds: seq<map<string, nat>> := [a, b, c];
    var none: seq<map<string, nat>> := [];
    assert ds[..2] == [a, b];
    assert ds[..2][..1] == [a];
    assert ds[..2][..1][..0] == none;
    assert SumAt(ds, k) == SumAt(ds[..2], k) + Get(c, k);
    assert SumAt(ds[..2], k) == SumAt(ds[..2][..1], k) + Get(b, k);
    assert SumAt(ds[..2][..1], k) == SumAt(none, k) + Get(a, k);
  }

  /** Merging three dictionaries: the keys are the union of theirs, and a
      key's count is the sum of its three counts. */
  lemma CombinedThree(a: map<string, nat>, b: map<string, nat>, c: map<string, nat>)
    ensures CombinedCounts([a, b, c]).Keys == a.Keys + b.Keys + c.Keys
    ensures forall k :: Get(CombinedCounts([a, b, c]), k) == Get(a, k) + Get(b, k) + Get(c, k)
  {
    var ds: seq<map<string, nat>> := [a, b, c];
    var none: seq<map<string, nat>> := [];
    assert ds[..2] == [a, b];
    assert ds[..2][..1] == [a];
    assert ds[..2][..1][..0] == none;
    assert KeysOf(ds[..2][..1]) == a.Keys;
    assert KeysOf(ds[..2]) == a.Keys + b.Keys;
    assert KeysOf(ds) == a.Keys + b.Keys + c.Keys;
    forall k ensures Get(CombinedCounts(ds), k) == Get(a, k) + Get(b, k) + Get(c, k) {
      CombinedThreeSum(a, b, c, k);
    }
  }

  /** The `CONT` count of a query is bacteria + chytrids + oomycetes with
      the diatoms left out, and its keys are the union of those three
      dictionaries' keys; every key's count is within the denominator. */
  lemma ContExcludesDiatoms(result: Result)
    requires result.Valid()
    ensures ContCounts(result).Keys == result.bact.Keys + result.chytrid.Keys + result.oomyc.Keys
    ensures forall k :: Get(ContCounts(result), k) == Get(result.bact, k) + Get(result.chytrid, k) + Get(result.oomyc, k)
    ensures forall k :: k in ContCounts(result) ==> result.PassedSelection(k) >= ContCounts(result)[k] >= 1
  {
    CombinedThree(result.bact, result.chytrid, result.oomyc);
    var c := ContCounts(result);
    forall k | k in c ensures result.PassedSelection(k) >= c[k] >= 1 {
      assert Get(c, k) == c[k];
      if k in result.bact { assert Get(result.bact, k) >= 1; }
      else if k in result.chytrid { assert Get(result.chytrid, k) >= 1; }
      else { assert Get(result.oomyc, k) >= 1; }
    }
  }

  /** A query with counts BAC 2, DIA 5, CHY 1, OOM 1 has a CONT count of 4,
      not 9: the diatoms are not merged. */
  lemma ContExample(result: Result)
    requires result.bact == map["q" := 2] && result.diatom == map["q" := 5]
    requires result.chytrid == map["q" := 1] && result.oomyc == map["q" := 1]
    ensures Get(ContCounts(result), "q") == 4
  {
    CombinedThreeSum(result.bact, result.chytrid, result.oomyc, "q");
  }

  // ---------------------------------------------------------------------
  // Reports

  /** The dictionary a `-g` group name selects; other names select nothing. */
  function GroupCounts(result: Result, group: string): Option<map<string, nat>>
    reads result
  {
    if group == "BAC" then Some(result.bact)
    else if group == "DIA" then Some(result.diatom)
    else if group == "CHY" then Some(result.chytrid)
    else if group == "OOM" then Some(result.oomyc)
    else if group == "CONT" then Some(ContCounts(result))
    else None
  }

  /** The queries printed for one `-g` group: the keys of its dictionary
      whose share of the query's hits reaches `percent` per cent. */
  function GroupReport(result: Result, group: string, percent: int): (keys: set<string>)
    reads result
    requires result.Valid()
    ensures forall k :: k in keys <==>
      GroupCounts(result, group).Some? && k in GroupCounts(result, group).value &&
      GroupCounts(result, group).value[k] * 100 >= percent * result.PassedSelection(k)
    ensures forall k :: k in keys ==> result.PassedSelection(k) > 0
  {
    match GroupCounts(result, group)
    case None => {}
    case Some(d) =>
      GroupKeysHaveHits(result, Bac);
      GroupKeysHaveHits(result, Dia);
      GroupKeysHaveHits(result, Chy);
      GroupKeysHaveHits(result, Oom);
      ContExcludesDiatoms(result);
      assert forall k :: k in d ==> result.PassedSelection(k) > 0;
      set k | k in d && Fraction(d, k, result, percent)
  }

  /** The count a group report compares, as a function of the input. */
  function GroupCount(lines: seq<Line>, group: string, q: string, th: Thresholds): nat {
    if group == "BAC" then Count(lines, Bac, q, th)
    else if group == "DIA" then Count(lines, Dia, q, th)
    else if group == "CHY" then Count(lines, Chy, q, th)
    else if group == "OOM" then Count(lines, Oom, q, th)
    else if group == "CONT" then Count(lines, Bac, q, th) + Count(lines, Chy, q, th) + Count(lines, Oom, q, th)
    else 0
  }

  /** One printed line of the default report. */
  datatype Row = Row(query: string, evalue: real, qlen: int, subject: string)

  function RowOf(l: Line): Row
    requires l.stats.Some?
  {
    Row(l.query, l.stats.value.evalue, l.stats.value.qlen, l.subject)
  }

  /** The default report: one row per stored best match, keyed by its query. */
  function BestMatchRows(result: Result): (rows: set<Row>)
    reads result
    requires result.Valid()
    ensures forall q :: q in result.bestMatch ==> RowOf(result.bestMatch[q]) in rows
    ensures forall row :: row in rows ==> row.query in result.bestMatch && row == RowOf(result.bestMatch[row.query])
  {
    set q | q in result.bestMatch :: RowOf(result.bestMatch[q])
  }

  /** `tests()`: some line carries one of the recognised subject prefixes. */
  function SeemsRightFormat(lines: seq<Line>): (found: bool)
    ensures found <==> exists i :: 0 <= i < |lines| && (IsBac(lines[i]) || IsDia(lines[i]) || IsChy(lines[i]) || IsOom(lines[i]))
  {
    if |lines| == 0 then false
    else
      var l := lines[|lines| - 1];
      var pre := lines[..|lines| - 1];
      assert forall i :: 0 <= i < |pre| ==> pre[i] == lines[i];
      SeemsRightFormat(pre) || IsBac(l) || IsDia(l) || IsChy(l) || IsOom(l)
  }

  /** What one run prints. */
  datatype Report =
    | FormatLooksRight
    | ExonList(pacids: set<string>)
    | BestMatches(rows: set<Row>)
    | GroupLists(perGroup: seq<set<string>>)

  /** The exon report lists the registered genes with at least `minExons`
      CDS features (none without a GFF3 file). */
  ghost predicate ExonsReported(pacids: set<string>, gff3: Option<seq<string>>, minExons: int)
    requires gff3.Some? ==> GeneModels.GffWellFormed(gff3.value)
  {
    forall p :: p in pacids <==>
      gff3.Some? && p in GeneModels.MrnaPacids(gff3.value) && GeneModels.CdsCount(gff3.value, p) >= minExons
  }

  /** The default report has one row per query with an accepted line, the
      row of that query's first minimal-e-value line. */
  ghost predicate BestRowsReported(rows: set<Row>, lines: seq<Line>, th: Thresholds) {
    && (forall q, b :: BestFor(lines, q, th) == Some(b) ==> RowOf(b) in rows)
    && (forall row :: row in rows ==>
          BestFor(lines, row.query, th).Some? && row == RowOf(BestFor(lines, row.query, th).value))
  }

  /** A query is listed for a group exactly when it has accepted hits in
      that group and they make up at least `percent` per cent of its
      denominator. */
  ghost predicate GroupListed(keys: set<string>, group: string, lines: seq<Line>, th: Thresholds, percent: int) {
    forall q :: q in keys <==>
      GroupCount(lines, group, q, th) > 0 &&
      GroupCount(lines, group, q, th) * 100 >= percent * Total(lines, q, th)
  }

  /** The default report of a tallied result is the best-match rows of the input. */
  lemma BestMatchRowsReported(result: Result, lines: seq<Line>, th: Thresholds)
    requires Tallied(result, lines, th)
    ensures BestRowsReported(BestMatchRows(result), lines, th)
  {
    var rows := BestMatchRows(result);
    forall q, b | BestFor(lines, q, th) == Some(b) ensures RowOf(b) in rows {
      assert Lookup(result.bestMatch, q) == Some(b);
    }
    forall row | row in rows
      ensures BestFor(lines, row.query, th).Some? && row == RowOf(BestFor(lines, row.query, th).value)
    {
      assert Lookup(result.bestMatch, row.query) == BestFor(lines, row.query, th);
    }
  }

  /** The dictionary a group name selects counts, per query, that group's
      accepted lines in the input, and holds only positive counts. */
  lemma GroupCountsMatch(result: Result, lines: seq<Line>, th: Thresholds, group: string)
    requires Tallied(result, lines, th)
    ensures GroupCounts(result, group).Some? ==>
      && Positive(GroupCounts(result, group).value)
      && forall q :: Get(GroupCounts(result, group).value, q) == GroupCount(lines, group, q, th)
    ensures GroupCounts(result, group).None? ==> forall q :: GroupCount(lines, group, q, th) == 0
  {
    if group == "CONT" {
      ContExcludesDiatoms(result);
      var d := ContCounts(result);
      forall q ensures Get(d, q) == GroupCount(lines, group, q, th) {
        assert Get(result.bact, q) == Count(lines, Bac, q, th);
        assert Get(result.chytrid, q) == Count(lines, Chy, q, th);
        assert Get(result.oomyc, q) == Count(lines, Oom, q, th);
      }
    }
  }

  /** The group report of a tallied result, stated on the input. */
  lemma GroupReportListed(result: Result, lines: seq<Line>, th: Thresholds, group: string, percent: int)
    requires Tallied(result, lines, th)
    ensures GroupListed(GroupReport(result, group, percent), group, lines, th, percent)
  {
    TalliedTotals(result, lines, th);
    GroupCountsMatch(result, lines, th, group);
    var keys := GroupReport(result, group, percent);
    forall q ensures q in keys <==>
      GroupCount(lines, group, q, th) > 0 &&
      GroupCount(lines, group, q, th) * 100 >= percent * Total(lines, q, th)
    {
      assert result.PassedSelection(q) == Total(lines, q, th);
      if GroupCounts(result, group).Some? {
        var d := GroupCounts(result, group).value;
        assert Get(d, q) == GroupCount(lines, group, q, th);
        assert q in d <==> Get(d, q) > 0;
      }
    }
  }

  /** The `--groups` report: one list per requested group, in order. */
  method GroupReports(result: Result, lines: seq<Line>, th: Thresholds, groups: seq<string>, percent: int)
    returns (perGroup: seq<set<string>>)
    requires Tallied(result, lines, th)
    ensures |perGroup| == |groups|
    ensures forall i :: 0 <= i < |groups| ==> GroupListed(perGroup[i], groups[i], lines, th, percent)
  {
    perGroup := [];
    for i := 0 to |groups|
      invariant |perGroup| == i
      invariant forall j :: 0 <= j < i ==> GroupListed(perGroup[j], groups[j], lines, th, percent)
    {
      GroupReportListed(result, lines, th, groups[i], percent);
      perGroup := perGroup + [GroupReport(result, groups[i], percent)];
    }
  }

  /** The whole script: the optional format check (which, when it finds no
      prefixed line, leaves the table file read to its end, so the main loop
      sees no lines), the optional GFF3 pass, the counting loop, and the one
      report that the options select. */
  method Run(table: seq<Line>, th: Thresholds, percent: int, groups: seq<string>, test: bool,
             gff3: Option<seq<string>>, minExons: int) returns (report: Report)
    requires !test ==> forall i :: 0 <= i < |table| ==> WellFormed(table[i])
    requires gff3.Some? && !(test && SeemsRightFormat(table)) ==> GeneModels.GffWellFormed(gff3.value)
    ensures test && SeemsRightFormat(table) ==> report == FormatLooksRight
    ensures !(test && SeemsRightFormat(table)) ==>
      var lines := if test then [] else table;
      && (|groups| == 0 && minExons >= 2 ==> report.ExonList? && ExonsReported(report.pacids, gff3, minExons))
      && (|groups| == 0 && minExons < 2 ==> report.BestMatches? && BestRowsReported(report.rows, lines, th))
      && (|groups| > 0 ==>
            && report.GroupLists? && |report.perGroup| == |groups|
            && forall i :: 0 <= i < |groups| ==> GroupListed(report.perGroup[i], groups[i], lines, th, percent))
  {
    if test && SeemsRightFormat(table) {
      return FormatLooksRight;
    }
    var lines := if test then [] else table;
    var geneDict: map<string, GeneModels.Gene> := map[];
    if gff3.Some? {
      var names;
      geneDict, names := GeneModels.ParseGff3(gff3.value);
    }
    var result := Tally(lines, th);
    if |groups| == 0 {
      if minExons >= 2 {
        report := ExonList(GeneModels.ExonReport(geneDict, minExons));
      } else {
        report := BestMatches(BestMatchRows(result));
        BestMatchRowsReported(result, lines, th);
      }
    } else {
      var perGroup := GroupReports(result, lines, th, groups, percent);
      report := GroupLists(perGroup);
    }
  }
}
