/** parseCDHITresult.py: the reader that cuts a CD-HIT cluster file
    (`*.clstr`) into clusters, the `Cluster` object that parses one cluster's
    member lines into five parallel lists and finds its centre, the sample
    list built from the member names, and the selection of the clusters whose
    centre is printed. Input lines are the raw text lines of the file, each
    with its final newline. */
module CdHit {
  import opened Wrappers
  import opened PyStrings

  // ---------------------------------------------------------------------
  // readCDHITtable

  /** A cluster header line: `>Cluster 0`. */
  predicate IsHeader(line: string)
    ensures IsHeader(line) <==> |line| > 0 && line[0] == '>'
  {
    StartsWith(line, ">")
  }

  /** The positions of the header lines, in increasing order. */
  function HeaderIndices(lines: seq<string>): (hs: seq<nat>)
    ensures forall k :: 0 <= k < |hs| ==> hs[k] < |lines|
    ensures forall k :: 0 < k < |hs| ==> hs[k - 1] < hs[k]
    ensures forall k :: 0 <= k < |hs| ==> hs[0] <= hs[k]
  {
    if |lines| == 0 then []
    else
      var n := |lines| - 1;
      HeaderIndices(lines[..n]) + (if IsHeader(lines[n]) then [n] else [])
  }

  /** `HeaderIndices` lists only header lines. */
  lemma {:induction false} HeaderIndicesAreHeaders(lines: seq<string>)
    ensures forall k :: 0 <= k < |HeaderIndices(lines)| ==> IsHeader(lines[HeaderIndices(lines)[k]])
  {
    if |lines| > 0 {
      var n := |lines| - 1;
      var pre := lines[..n];
      HeaderIndicesAreHeaders(pre);
      var hp := HeaderIndices(pre);
      forall k | 0 <= k < |HeaderIndices(lines)| ensures IsHeader(lines[HeaderIndices(lines)[k]]) {
        if k < |hp| { assert HeaderIndices(lines)[k] == hp[k] && pre[hp[k]] == lines[hp[k]]; }
      }
    }
  }

  /** `HeaderIndices` is strictly increasing. */
  lemma {:induction false} HeaderIndicesSorted(lines: seq<string>)
    ensures forall k, k' :: 0 <= k < k' < |HeaderIndices(lines)| ==> HeaderIndices(lines)[k] < HeaderIndices(lines)[k']
  {
    if |lines| > 0 {
      var n := |lines| - 1;
      var pre := lines[..n];
      HeaderIndicesSorted(pre);
      var hp := HeaderIndices(pre);
      var hs := HeaderIndices(lines);
      forall k, k' | 0 <= k < k' < |hs| ensures hs[k] < hs[k'] {
        if k' < |hp| { assert hs[k] == hp[k] && hs[k'] == hp[k']; }
        else { assert hs[k] == hp[k] < n; }
      }
    }
  }

  /** `HeaderIndices` misses no header line. */
  lemma {:induction false} HeaderIndicesComplete(lines: seq<string>)
    ensures forall i :: 0 <= i < |lines| && IsHeader(lines[i]) ==> i in HeaderIndices(lines)
  {
    if |lines| > 0 {
      var n := |lines| - 1;
      var pre := lines[..n];
      HeaderIndicesComplete(pre);
      var hp := HeaderIndices(pre);
      var hs := HeaderIndices(lines);
      assert hs == hp + (if IsHeader(lines[n]) then [n] else []);
      forall i | 0 <= i < |lines| && IsHeader(lines[i]) ensures i in hs {
        if i < n { assert pre[i] == lines[i]; assert i in hp; }
      }
    }
  }

  /** Where the body of the `k`-th cluster ends: at the next header, or at
      the end of the file for the last cluster. */
  function BodyEnd(lines: seq<string>, k: nat): (e: nat)
    requires k < |HeaderIndices(lines)|
    ensures HeaderIndices(lines)[0] <= HeaderIndices(lines)[k] < e <= |lines|
  {
    var hs := HeaderIndices(lines);
    if k + 1 < |hs| then hs[k + 1] else |lines|
  }

  /** One pair yielded by `readCDHITtable`: the header line and the joined
      lines of its body. */
  datatype ClusterText = ClusterText(header: string, body: string)

  /** The pairs `readCDHITtable` yields: one per header line, in file order,
      each with the lines up to the next header (or the end) joined. */
  function ClusterTexts(lines: seq<string>): (texts: seq<ClusterText>)
    ensures |texts| == |HeaderIndices(lines)|
  {
    var hs := HeaderIndices(lines);
    seq(|hs|, k requires 0 <= k < |hs| => PairAt(lines, hs[k], BodyEnd(lines, k)))
  }

  /** The pair of the cluster whose header is line `a` and whose body runs
      up to line `b`. */
  function PairAt(lines: seq<string>, a: nat, b: nat): ClusterText
    requires a < b <= |lines|
  {
    ClusterText(lines[a], Concat(lines[a + 1..b]))
  }

  /** The headers of a file with one more line. */
  lemma HeaderIndicesSnoc(lines: seq<string>, i: nat)
    requires i < |lines|
    ensures HeaderIndices(lines[..i + 1]) ==
      HeaderIndices(lines[..i]) + (if IsHeader(lines[i]) then [i] else [])
  {
    assert lines[..i + 1][..i] == lines[..i];
  }

  /** A pair does not depend on the lines after its body. */
  lemma PairAtPrefix(lines: seq<string>, n: nat, a: nat, b: nat)
    requires a < b <= n <= |lines|
    ensures PairAt(lines[..n], a, b) == PairAt(lines, a, b)
  {
    assert lines[..n][a + 1..b] == lines[a + 1..b];
  }

  /** `Concat` of one more line. */
  lemma ConcatSnoc(parts: seq<string>, line: string)
    ensures Concat(parts + [line]) == Concat(parts) + line
  {
    assert (parts + [line])[..|parts|] == parts;
  }

  /** `ys` is `xs` with `x` appended, element by element. */
  lemma SeqSnoc<T>(xs: seq<T>, ys: seq<T>, x: T)
    requires |ys| == |xs| + 1 && ys[|xs|] == x
    requires forall k :: 0 <= k < |xs| ==> ys[k] == xs[k]
    ensures ys == xs + [x]
  {
  }

  /** The body of a pair that runs to the end of a prefix grows by the next
      line. */
  lemma LastPairGrows(lines: seq<string>, a: nat, i: nat)
    requires a < i < |lines|
    ensures PairAt(lines[..i + 1], a, i + 1) ==
      ClusterText(PairAt(lines[..i], a, i).header, PairAt(lines[..i], a, i).body + lines[i])
  {
    assert lines[..i + 1][a + 1..i + 1] == lines[..i][a + 1..i] + [lines[i]];
    ConcatSnoc(lines[..i][a + 1..i], lines[i]);
  }

  /** A pair that ends before line `i` (or at a header on line `i`) is the
      same after reading line `i`. */
  lemma EarlierPairKept(lines: seq<string>, i: nat, k: nat)
    requires i < |lines| && k < |HeaderIndices(lines[..i])|
    requires k + 1 < |HeaderIndices(lines[..i])| || IsHeader(lines[i])
    ensures k < |ClusterTexts(lines[..i + 1])|
    ensures ClusterTexts(lines[..i + 1])[k] == ClusterTexts(lines[..i])[k]
  {
    var p, q := lines[..i], lines[..i + 1];
    assert q[..i] == p;
    HeaderIndicesSnoc(lines, i);
    assert BodyEnd(q, k) == BodyEnd(p, k);
    PairAtPrefix(q, i, HeaderIndices(p)[k], BodyEnd(p, k));
  }

  /** Reading a header line adds a cluster with an empty body. */
  lemma ClusterTextsHeaderLine(lines: seq<string>, i: nat)
    requires i < |lines| && IsHeader(lines[i])
    ensures ClusterTexts(lines[..i + 1]) == ClusterTexts(lines[..i]) + [ClusterText(lines[i], "")]
  {
    var p, q := lines[..i], lines[..i + 1];
    assert q[..i] == p;
    HeaderIndicesSnoc(lines, i);
    var tp, tq := ClusterTexts(p), ClusterTexts(q);
    forall k | 0 <= k < |tp| ensures tq[k] == tp[k] {
      EarlierPairKept(lines, i, k);
    }
    assert tq[|tp|] == PairAt(q, i, i + 1);
    assert q[i + 1..i + 1] == [];
    SeqSnoc(tp, tq, ClusterText(lines[i], ""));
  }

  /** Reading a line that is not a header adds it to the body of the last
      pair. */
  lemma LastPairGains(lines: seq<string>, i: nat)
    requires i < |lines| && !IsHeader(lines[i]) && |ClusterTexts(lines[..i])| > 0
    ensures var tp, n := ClusterTexts(lines[..i]), |ClusterTexts(lines[..i])| - 1;
      |ClusterTexts(lines[..i + 1])| == n + 1 &&
      ClusterTexts(lines[..i + 1])[n] == ClusterText(tp[n].header, tp[n].body + lines[i])
  {
    var p, q := lines[..i], lines[..i + 1];
    assert q[..i] == p;
    HeaderIndicesSnoc(lines, i);
    var n := |ClusterTexts(p)| - 1;
    assert BodyEnd(q, n) == i + 1 && BodyEnd(p, n) == i;
    LastPairGrows(lines, HeaderIndices(p)[n], i);
  }

  /** Reading any other line appends it to the body of the last cluster, if
      there is one. */
  lemma ClusterTextsBodyLine(lines: seq<string>, i: nat)
    requires i < |lines| && !IsHeader(lines[i])
    ensures var texts := ClusterTexts(lines[..i]);
      ClusterTexts(lines[..i + 1]) ==
        if |texts| == 0 then []
        else texts[..|texts| - 1] + [ClusterText(texts[|texts| - 1].header, texts[|texts| - 1].body + lines[i])]
  {
    var p, q := lines[..i], lines[..i + 1];
    assert q[..i] == p;
    HeaderIndicesSnoc(lines, i);
    var tp, tq := ClusterTexts(p), ClusterTexts(q);
    if |tp| > 0 {
      var n := |tp| - 1;
      forall k | 0 <= k < n ensures tq[k] == tp[k] {
        EarlierPairKept(lines, i, k);
      }
      LastPairGains(lines, i);
      SeqSnoc(tp[..n], tq, ClusterText(tp[n].header, tp[n].body + lines[i]));
    }
  }

  /** `readCDHITtable(infile)`: a header starts a new cluster (after
      yielding the current one, if any); any other line is added to the
      current body; lines before the first header belong to no cluster. */
  method ReadCDHITTable(lines: seq<string>) returns (pairs: seq<ClusterText>)
    ensures pairs == ClusterTexts(lines)
  {
    var cluster: Option<string> := None;
    var result: seq<string> := [];
    pairs := [];
    for i := 0 to |lines|
      invariant cluster.None? ==> pairs == [] && ClusterTexts(lines[..i]) == []
      invariant cluster.Some? ==> ClusterTexts(lines[..i]) == pairs + [ClusterText(cluster.value, Concat(result))]
    {
      var line := lines[i];
      if IsHeader(line) {
        ClusterTextsHeaderLine(lines, i);
        if cluster.Some? {
          pairs := pairs + [ClusterText(cluster.value, Concat(result))];
        }
        cluster, result := Some(line), [];
      } else {
        ClusterTextsBodyLine(lines, i);
        ConcatSnoc(result, line);
        result := result + [line];
      }
    }
    assert lines[..|lines|] == lines;
    if cluster.Some? {
      pairs := pairs + [ClusterText(cluster.value, Concat(result))];
    }
  }

  /** A body holds no header line. */
  lemma BodiesHaveNoHeaders(lines: seq<string>, k: nat, j: nat)
    requires k < |HeaderIndices(lines)|
    requires HeaderIndices(lines)[k] < j < BodyEnd(lines, k)
    ensures !IsHeader(lines[j])
  {
    var hs := HeaderIndices(lines);
    HeaderIndicesSorted(lines);
    HeaderIndicesComplete(lines);
    forall m | 0 <= m < |hs| ensures hs[m] != j {
      if m <= k {
        assert hs[m] <= hs[k];
      } else {
        assert hs[k + 1] <= hs[m];
      }
    }
  }

  /** `header + body` for every pair, joined. */
  function Flatten(texts: seq<ClusterText>): string {
    if |texts| == 0 then ""
    else Flatten(texts[..|texts| - 1]) + texts[|texts| - 1].header + texts[|texts| - 1].body
  }

  lemma {:induction false} ConcatAppend(a: seq<string>, b: seq<string>)
    ensures Concat(a + b) == Concat(a) + Concat(b)
    decreases |b|
  {
    if |b| > 0 {
      var n := |b| - 1;
      assert (a + b)[..|a + b| - 1] == a + b[..n];
      ConcatAppend(a, b[..n]);
    } else {
      assert a + b == a;
    }
  }

  /** Joining a slice is joining its two halves. */
  lemma ConcatSplitAt(xs: seq<string>, a: nat, m: nat, b: nat)
    requires a <= m <= b <= |xs|
    ensures Concat(xs[a..b]) == Concat(xs[a..m]) + Concat(xs[m..b])
  {
    ConcatAppend(xs[a..m], xs[m..b]);
    assert xs[a..m] + xs[m..b] == xs[a..b];
  }

  /** Joining a slice is joining its first line and the rest. */
  lemma ConcatCons(xs: seq<string>, a: nat, b: nat)
    requires a < b <= |xs|
    ensures Concat(xs[a..b]) == xs[a] + Concat(xs[a + 1..b])
  {
    assert Concat([xs[a]]) == xs[a] by { assert [xs[a]][..0] == []; }
    ConcatAppend([xs[a]], xs[a + 1..b]);
    assert [xs[a]] + xs[a + 1..b] == xs[a..b];
  }

  /** One pair, written out again, is its header line and body lines. */
  lemma TextAt(lines: seq<string>, k: nat)
    requires k < |HeaderIndices(lines)|
    ensures ClusterTexts(lines)[k].header + ClusterTexts(lines)[k].body ==
      Concat(lines[HeaderIndices(lines)[k]..BodyEnd(lines, k)])
  {
    var s, e := HeaderIndices(lines)[k], BodyEnd(lines, k);
    ConcatCons(lines, s, e);
  }

  /** Writing out one more pair. */
  lemma FlattenSnoc(texts: seq<ClusterText>, k: nat)
    requires 0 < k <= |texts|
    ensures Flatten(texts[..k]) == Flatten(texts[..k - 1]) + (texts[k - 1].header + texts[k - 1].body)
  {
    assert texts[..k][..k - 1] == texts[..k - 1];
  }

  /** The first `k` pairs, written out again, are the file from its first
      header up to the end of the `k`-th cluster. */
  lemma {:induction false} FlattenPrefix(lines: seq<string>, k: nat)
    requires 0 < k <= |HeaderIndices(lines)|
    ensures Flatten(ClusterTexts(lines)[..k]) ==
      Concat(lines[HeaderIndices(lines)[0]..BodyEnd(lines, k - 1)])
  {
    var hs := HeaderIndices(lines);
    var texts := ClusterTexts(lines);
    FlattenSnoc(texts, k);
    TextAt(lines, k - 1);
    if k > 1 {
      FlattenPrefix(lines, k - 1);
      assert BodyEnd(lines, k - 2) == hs[k - 1];
      ConcatSplitAt(lines, hs[0], hs[k - 1], BodyEnd(lines, k - 1));
    } else {
      assert texts[..0] == [];
    }
  }

  /** Nothing but the lines before the first header is lost: the yielded
      pairs, written out again, are the file from its first header on. */
  lemma ClusterTextsRoundTrip(lines: seq<string>)
    ensures |HeaderIndices(lines)| == 0 ==> ClusterTexts(lines) == [] && forall i :: 0 <= i < |lines| ==> !IsHeader(lines[i])
    ensures |HeaderIndices(lines)| > 0 ==>
      Flatten(ClusterTexts(lines)) == Concat(lines[HeaderIndices(lines)[0]..|lines|])
  {
    var hs := HeaderIndices(lines);
    if |hs| == 0 {
      HeaderIndicesComplete(lines);
    } else {
      FlattenPrefix(lines, |hs|);
      var texts := ClusterTexts(lines);
      assert texts[..|texts|] == texts;
      assert BodyEnd(lines, |hs| - 1) == |lines|;
    }
  }

  // ---------------------------------------------------------------------
  // Member lines of one cluster

  /** The non-blank lines among `parts`, in order. */
  function NonBlank(parts: seq<string>): (rows: seq<string>)
    ensures |rows| <= |parts|
  {
    if |parts| == 0 then []
    else
      var n := |parts| - 1;
      NonBlank(parts[..n]) + (if Blank(parts[n]) then [] else [parts[n]])
  }

  /** `NonBlank` keeps exactly the non-blank lines. */
  lemma {:induction false} NonBlankMembers(parts: seq<string>)
    ensures forall k :: 0 <= k < |NonBlank(parts)| ==> NonBlank(parts)[k] in parts && !Blank(NonBlank(parts)[k])
    ensures forall j :: 0 <= j < |parts| && !Blank(parts[j]) ==> parts[j] in NonBlank(parts)
  {
    if |parts| > 0 {
      var n := |parts| - 1;
      var pre := parts[..n];
      NonBlankMembers(pre);
      var rows := NonBlank(parts);
      assert rows == NonBlank(pre) + (if Blank(parts[n]) then [] else [parts[n]]);
      forall k | 0 <= k < |rows| ensures rows[k] in parts && !Blank(rows[k]) {
        if k < |NonBlank(pre)| {
          assert rows[k] == NonBlank(pre)[k];
          assert rows[k] in pre;
        }
      }
      forall j | 0 <= j < |parts| && !Blank(parts[j]) ensures parts[j] in rows {
        if j < n {
          assert parts[j] == pre[j];
          assert parts[j] in NonBlank(pre);
        }
      }
    }
  }

  /** One more line is kept exactly when it is not blank. */
  lemma NonBlankSnoc(parts: seq<string>, i: nat)
    requires i < |parts|
    ensures NonBlank(parts[..i + 1]) == NonBlank(parts[..i]) + (if Blank(parts[i]) then [] else [parts[i]])
  {
    assert parts[..i + 1][..i] == parts[..i];
  }

  /** The member lines of a cluster body: `result.split("\n")` without the
      lines that `strip()` empties. */
  function Rows(body: string): (rows: seq<string>)
    ensures forall k :: 0 <= k < |rows| ==> rows[k] in Split(body, "\n") && !Blank(rows[k])
    ensures forall j :: 0 <= j < |Split(body, "\n")| && !Blank(Split(body, "\n")[j]) ==> Split(body, "\n")[j] in rows
  {
    NonBlankMembers(Split(body, "\n"));
    NonBlank(Split(body, "\n"))
  }

  /** A member line that `parse_result` reads without an IndexError: four
      fields, and for a non-reference member a fifth whose part before `%`
      has at least three `/`-separated pieces. */
  predicate RowOk(row: string) {
    var w := Words(row);
    |w| >= 4 && (w[3] != "*" ==> |w| >= 5 && |Split(Head(w[4], "%"), "/")| >= 3)
  }

  predicate AllRowsOk(rows: seq<string>) {
    forall k :: 0 <= k < |rows| ==> RowOk(rows[k])
  }

  /** Every non-blank line is a readable member line. */
  predicate LinesOk(parts: seq<string>) {
    forall j :: 0 <= j < |parts| && !Blank(parts[j]) ==> RowOk(parts[j])
  }

  /** Every member line of the body is readable. */
  predicate BodyOk(body: string) {
    AllRowsOk(Rows(body))
  }

  /** So every non-blank line of `result.split("\n")` is readable. */
  lemma BodyLinesOk(body: string)
    requires BodyOk(body)
    ensures LinesOk(Split(body, "\n"))
  {
    var parts := Split(body, "\n");
    NonBlankMembers(parts);
    forall j | 0 <= j < |parts| && !Blank(parts[j]) ensures RowOk(parts[j]) {
      var rows := Rows(body);
      var k :| 0 <= k < |rows| && rows[k] == parts[j];
    }
  }

  /** The identity entry: the reference mark or the identity text. */
  datatype Identity = RefMark | Percent(text: string)

  /** Field 0: the member's number within the cluster. */
  function NumberOf(row: string): string
    requires RowOk(row)
  {
    Words(row)[0]
  }

  /** Field 1 cut at the first `nt,`: the sequence length. */
  function LengthOf(row: string): string
    requires RowOk(row)
  {
    Head(Words(row)[1], "nt,")
  }

  /** Field 2 cut at the first `...`, leading `>` removed: the sequence name. */
  function SeqNameOf(row: string): string
    requires RowOk(row)
  {
    LStrip(Head(Words(row)[2], "..."), '>')
  }

  /** `REF` for the reference member (field 3 is `*`), else field 4 cut at
      its first `/`. */
  function StrainOf(row: string): string
    requires RowOk(row)
  {
    var w := Words(row);
    if w[3] == "*" then "REF" else Head(w[4], "/")
  }

  /** The reference mark for the reference member; else the third
      `/`-separated piece of field 4 before its `%`. */
  function IdentityOf(row: string): Identity
    requires RowOk(row)
  {
    var w := Words(row);
    if w[3] == "*" then RefMark else Percent(Split(Head(w[4], "%"), "/")[2])
  }

  /** The five columns `parse_result` fills, one entry per member line. */
  function Numbers(rows: seq<string>): (r: seq<string>)
    requires AllRowsOk(rows)
    ensures |r| == |rows|
  {
    seq(|rows|, k requires 0 <= k < |rows| && RowOk(rows[k]) => NumberOf(rows[k]))
  }

  function Lengths(rows: seq<string>): (r: seq<string>)
    requires AllRowsOk(rows)
    ensures |r| == |rows|
  {
    seq(|rows|, k requires 0 <= k < |rows| && RowOk(rows[k]) => LengthOf(rows[k]))
  }

  function SeqNames(rows: seq<string>): (r: seq<string>)
    requires AllRowsOk(rows)
    ensures |r| == |rows|
  {
    seq(|rows|, k requires 0 <= k < |rows| && RowOk(rows[k]) => SeqNameOf(rows[k]))
  }

  function Strains(rows: seq<string>): (r: seq<string>)
    requires AllRowsOk(rows)
    ensures |r| == |rows|
  {
    seq(|rows|, k requires 0 <= k < |rows| && RowOk(rows[k]) => StrainOf(rows[k]))
  }

  function Identities(rows: seq<string>): (r: seq<Identity>)
    requires AllRowsOk(rows)
    ensures |r| == |rows|
  {
    seq(|rows|, k requires 0 <= k < |rows| && RowOk(rows[k]) => IdentityOf(rows[k]))
  }

  /** Entry `k` of every column is read from member line `k`. */
  lemma ColumnsAt(rows: seq<string>, k: nat)
    requires AllRowsOk(rows) && k < |rows|
    ensures Numbers(rows)[k] == NumberOf(rows[k]) && Lengths(rows)[k] == LengthOf(rows[k])
    ensures SeqNames(rows)[k] == SeqNameOf(rows[k]) && Strains(rows)[k] == StrainOf(rows[k])
    ensures Identities(rows)[k] == IdentityOf(rows[k])
  {
  }

  /** One more member line adds one entry to the end of every column. */
  lemma ColumnsSnoc(rows: seq<string>, row: string)
    requires AllRowsOk(rows) && RowOk(row)
    ensures AllRowsOk(rows + [row])
    ensures Numbers(rows + [row]) == Numbers(rows) + [NumberOf(row)]
    ensures Lengths(rows + [row]) == Lengths(rows) + [LengthOf(row)]
    ensures SeqNames(rows + [row]) == SeqNames(rows) + [SeqNameOf(row)]
    ensures Strains(rows + [row]) == Strains(rows) + [StrainOf(row)]
    ensures Identities(rows + [row]) == Identities(rows) + [IdentityOf(row)]
  {
    var rs := rows + [row];
    assert forall j :: 0 <= j < |rows| ==> rs[j] == rows[j];
    assert rs[..|rows|] == rows;
  }

  /** The body of `parse_result`'s loop for one member line: its five
      entries, read field by field. */
  method ReadMemberLine(line: string) returns (number: string, length: string, seqName: string,
                                               strain: string, identity: Identity)
    requires RowOk(line)
    ensures number == NumberOf(line) && length == LengthOf(line) && seqName == SeqNameOf(line)
    ensures strain == StrainOf(line) && identity == IdentityOf(line)
  {
    var w := Words(line);
    number := w[0];
    length := Head(w[1], "nt,");
    seqName := LStrip(Head(w[2], "..."), '>');
    if w[3] == "*" {
      strain, identity := "REF", RefMark;
    } else {
      strain := Head(w[4], "/");
      identity := Percent(Split(Head(w[4], "%"), "/")[2]);
    }
  }

  /** The five lists `parse_result` fills. */
  datatype Table = Table(numbers: seq<string>, lengths: seq<string>, seqNames: seq<string>,
                         strains: seq<string>, identities: seq<Identity>)

  /** The five columns of some member lines. */
  function TableOf(rows: seq<string>): Table
    requires AllRowsOk(rows)
  {
    Table(Numbers(rows), Lengths(rows), SeqNames(rows), Strains(rows), Identities(rows))
  }

  /** One more member line adds one entry to the end of every list. */
  lemma TableSnoc(rows: seq<string>, row: string, t: Table)
    requires AllRowsOk(rows) && RowOk(row) && t == TableOf(rows)
    ensures AllRowsOk(rows + [row])
    ensures TableOf(rows + [row]) == Table(t.numbers + [NumberOf(row)], t.lengths + [LengthOf(row)],
      t.seqNames + [SeqNameOf(row)], t.strains + [StrainOf(row)], t.identities + [IdentityOf(row)])
  {
    ColumnsSnoc(rows, row);
  }

  /** The loop of `parse_result`: one pass over the body's lines; a blank
      line is skipped, any other adds one entry to each of the five lists. */
  method ReadLines(parts: seq<string>) returns (t: Table)
    requires LinesOk(parts)
    ensures AllRowsOk(NonBlank(parts)) && t == TableOf(NonBlank(parts))
  {
    t := Table([], [], [], [], []);
    ghost var rows: seq<string> := [];
    for i := 0 to |parts|
      invariant rows == NonBlank(parts[..i]) && AllRowsOk(rows)
      invariant t == TableOf(rows)
    {
      var line := parts[i];
      NonBlankSnoc(parts, i);
      if !Blank(line) {
        TableSnoc(rows, line, t);
        var number, length, seqName, strain, identity := ReadMemberLine(line);
        t := Table(t.numbers + [number], t.lengths + [length], t.seqNames + [seqName],
                   t.strains + [strain], t.identities + [identity]);
        rows := rows + [line];
      }
    }
    assert parts[..|parts|] == parts;
  }

  /** `parse_result`'s loop over `result.split("\n")`. */
  method ReadMembers(body: string) returns (t: Table)
    requires BodyOk(body)
    ensures AllRowsOk(Rows(body)) && t == TableOf(Rows(body))
  {
    BodyLinesOk(body);
    t := ReadLines(Split(body, "\n"));
  }

  /** The reference member fills both the strain and the identity slot with
      `REF`; an identity slot holds `REF` only for the reference member. */
  lemma ReferenceColumns(rows: seq<string>, k: nat)
    requires AllRowsOk(rows) && k < |rows|
    ensures Words(rows[k])[3] == "*" ==> Strains(rows)[k] == "REF" && Identities(rows)[k] == RefMark
    ensures Identities(rows)[k] == RefMark <==> Words(rows[k])[3] == "*"
  {
    ColumnsAt(rows, k);
  }

  /** The index of the first reference member, if any. */
  function FirstRef(ids: seq<Identity>): (r: Option<nat>)
    ensures r.Some? ==> r.value < |ids| && ids[r.value] == RefMark
    ensures r.Some? ==> forall j :: 0 <= j < r.value ==> ids[j] != RefMark
    ensures r.None? <==> forall j :: 0 <= j < |ids| ==> ids[j] != RefMark
  {
    if |ids| == 0 then None
    else if ids[0] == RefMark then Some(0)
    else match FirstRef(ids[1..])
      case None => None
      case Some(i) => Some(i + 1)
  }

  /** The name beside the first reference mark of two aligned columns, or
      nothing when no entry is the mark. */
  function NameAtFirstRef(ids: seq<Identity>, names: seq<string>): (c: Option<string>)
    requires |ids| == |names|
  {
    match FirstRef(ids)
    case None => None
    case Some(i) => Some(names[i])
  }

  /** The centre of a cluster: the name of its first reference member, or
      nothing when no member is marked `*`. */
  function Center(rows: seq<string>): (c: Option<string>)
    requires AllRowsOk(rows)
  {
    NameAtFirstRef(Identities(rows), SeqNames(rows))
  }

  /** The centre is the name of the first member whose field 3 is `*`, and
      there is none exactly when no member is so marked. */
  lemma CenterIsFirstStar(rows: seq<string>)
    requires AllRowsOk(rows)
    ensures Center(rows).None? <==> forall k :: 0 <= k < |rows| ==> Words(rows[k])[3] != "*"
    ensures Center(rows).Some? ==>
      exists k :: && 0 <= k < |rows| && Words(rows[k])[3] == "*"
                  && Center(rows).value == SeqNameOf(rows[k])
                  && forall j :: 0 <= j < k ==> Words(rows[j])[3] != "*"
  {
    var ids := Identities(rows);
    match FirstRef(ids)
    case None =>
      forall k | 0 <= k < |rows| ensures Words(rows[k])[3] != "*" {
        ReferenceColumns(rows, k);
      }
    case Some(i) =>
      ReferenceColumns(rows, i);
      ColumnsAt(rows, i);
      forall j | 0 <= j < i ensures Words(rows[j])[3] != "*" {
        ReferenceColumns(rows, j);
      }
  }

  // ---------------------------------------------------------------------
  // Samples

  /** No element occurs twice. */
  predicate NoDup<T(==)>(xs: seq<T>) {
    forall i, j :: 0 <= i < j < |xs| ==> xs[i] != xs[j]
  }

  /** `xs` with every element kept only at its first occurrence. */
  function Distinct<T(==)>(xs: seq<T>): (d: seq<T>)
    ensures |d| <= |xs|
  {
    if |xs| == 0 then []
    else
      var n := |xs| - 1;
      var pre := Distinct(xs[..n]);
      if xs[n] in pre then pre else pre + [xs[n]]
  }

  /** `Distinct` keeps every element once and adds none. */
  lemma {:induction false} DistinctMembers<T>(xs: seq<T>)
    ensures NoDup(Distinct(xs))
    ensures forall x :: x in Distinct(xs) <==> x in xs
  {
    if |xs| > 0 {
      var n := |xs| - 1;
      DistinctMembers(xs[..n]);
      assert xs == xs[..n] + [xs[n]];
    }
  }

  /** The position of the first occurrence of `x` in `xs`. */
  function FirstIndex<T(==)>(xs: seq<T>, x: T): (k: nat)
    requires x in xs
    ensures k < |xs| && xs[k] == x
    ensures forall j :: 0 <= j < k ==> xs[j] != x
  {
    if xs[0] == x then 0 else 1 + FirstIndex(xs[1..], x)
  }

  lemma FirstIndexInPrefix<T>(xs: seq<T>, n: nat, x: T)
    requires n <= |xs| && x in xs[..n]
    ensures x in xs && FirstIndex(xs, x) == FirstIndex(xs[..n], x)
  {
    var k := FirstIndex(xs[..n], x);
    assert xs[k] == x;
    forall j | 0 <= j < k ensures xs[j] != x {
      assert xs[..n][j] == xs[j];
    }
  }

  /** The kept elements appear in the order of their first occurrences. */
  lemma {:induction false} DistinctFirstOccurrenceOrder<T>(xs: seq<T>)
    ensures forall x :: x in Distinct(xs) ==> x in xs
    ensures forall i, j :: 0 <= i < j < |Distinct(xs)| ==>
      FirstIndex(xs, Distinct(xs)[i]) < FirstIndex(xs, Distinct(xs)[j])
  {
    DistinctMembers(xs);
    if |xs| > 0 {
      var n := |xs| - 1;
      var pre := Distinct(xs[..n]);
      DistinctFirstOccurrenceOrder(xs[..n]);
      DistinctMembers(xs[..n]);
      var d := Distinct(xs);
      forall i, j | 0 <= i < j < |d| ensures FirstIndex(xs, d[i]) < FirstIndex(xs, d[j]) {
        assert d[i] == pre[i] && pre[i] in pre;
        FirstIndexInPrefix(xs, n, d[i]);
        if j < |pre| {
          assert d[j] == pre[j] && pre[j] in pre;
          FirstIndexInPrefix(xs, n, d[j]);
        } else {
          assert d[j] == xs[n] && xs[n] !in xs[..n];
          assert FirstIndex(xs, d[j]) == n;
        }
      }
    }
  }

  /** `header.split(delimiter)[0]` for every member name. */
  function Prefixes(names: seq<string>, delimiter: string): (ps: seq<Option<string>>)
    requires |delimiter| > 0
    ensures |ps| == |names|
  {
    seq(|names|, k requires 0 <= k < |names| => Some(Head(names[k], delimiter)))
  }

  /** `sample_list`: with a (non-empty) delimiter, the distinct name
      prefixes in first-occurrence order; without one, `[None]`. */
  function SampleList(names: seq<string>, delimiter: Option<string>): seq<Option<string>> {
    if delimiter.Some? && delimiter.value != "" then Distinct(Prefixes(names, delimiter.value))
    else [None]
  }

  /** Without a delimiter a cluster has one sample; with one, its samples
      are exactly the distinct name prefixes: at least one per non-empty
      cluster and at most one per member. */
  lemma SampleCountBounds(names: seq<string>, delimiter: Option<string>)
    ensures !(delimiter.Some? && delimiter.value != "") ==> SampleList(names, delimiter) == [None]
    ensures delimiter.Some? && delimiter.value != "" ==>
      && NoDup(SampleList(names, delimiter))
      && |SampleList(names, delimiter)| <= |names|
      && (|SampleList(names, delimiter)| == 0 <==> |names| == 0)
      && forall s :: s in SampleList(names, delimiter) <==>
           exists k :: 0 <= k < |names| && s == Some(Head(names[k], delimiter.value))
  {
    if delimiter.Some? && delimiter.value != "" {
      var ps := Prefixes(names, delimiter.value);
      DistinctMembers(ps);
      if |names| > 0 { assert ps[0] in ps; }
      forall s ensures s in ps <==> exists k :: 0 <= k < |names| && s == Some(Head(names[k], delimiter.value)) {
        if s in ps {
          var k :| 0 <= k < |ps| && ps[k] == s;
          assert s == Some(Head(names[k], delimiter.value));
        }
        if exists k :: 0 <= k < |names| && s == Some(Head(names[k], delimiter.value)) {
          var k :| 0 <= k < |names| && s == Some(Head(names[k], delimiter.value));
          assert ps[k] == s;
        }
      }
    }
  }

  /** The loop of `Cluster.__init__` that collects the sample names. */
  method CollectSamples(names: seq<string>, delimiter: string) returns (samples: seq<Option<string>>)
    requires |delimiter| > 0
    ensures samples == Distinct(Prefixes(names, delimiter))
  {
    samples := [];
    ghost var ps := Prefixes(names, delimiter);
    for i := 0 to |names|
      invariant samples == Distinct(ps[..i])
    {
      assert ps[..i + 1][..i] == ps[..i];
      var sampleName := Head(names[i], delimiter);
      if Some(sampleName) !in samples {
        samples := samples + [Some(sampleName)];
      }
    }
    assert ps[..|names|] == ps;
  }

  // ---------------------------------------------------------------------
  // The Cluster object

  /** Five lists and a sample list that are what `Cluster` makes of `body`
      and `delimiter`: the columns of the member lines, and the samples of
      the names. */
  ghost predicate Parsed(body: string, delimiter: Option<string>, numbers: seq<string>,
                         lengths: seq<string>, seqNames: seq<string>, strains: seq<string>,
                         identities: seq<Identity>, sampleList: seq<Option<string>>)
  {
    && AllRowsOk(Rows(body))
    && numbers == Numbers(Rows(body))
    && lengths == Lengths(Rows(body))
    && seqNames == SeqNames(Rows(body))
    && strains == Strains(Rows(body))
    && identities == Identities(Rows(body))
    && sampleList == SampleList(seqNames, delimiter)
  }

  class Cluster {
    var name: string
    var result: string
    var numbers: seq<string>
    var lengths: seq<string>
    var seqNames: seq<string>
    var strains: seq<string>
    var identities: seq<Identity>
    var sampleList: seq<Option<string>>
    /** The `--sample_delimiter` option the cluster was built with. */
    ghost const sampleDelimiter: Option<string>

    /** The five lists are the columns of the body's member lines, and the
        sample list is built from the names. */
    ghost predicate Valid()
      reads this
    {
      Parsed(result, sampleDelimiter, numbers, lengths, seqNames, strains, identities, sampleList)
    }

    /** `Cluster(cluster, result, args)`: the lists are parsed right away and
        the sample list follows the delimiter option. */
    constructor (cluster: string, result: string, delimiter: Option<string>)
      requires BodyOk(result)
      ensures Valid()
      ensures name == cluster && this.result == result && sampleDelimiter == delimiter
    {
      name := cluster;
      this.result := result;
      sampleDelimiter := delimiter;
      new;
      ParseResult();
      if delimiter.Some? && delimiter.value != "" {
        var headerList := GetResultsSeqNames();
        sampleList := CollectSamples(headerList, delimiter.value);
      } else {
        sampleList := [None];
      }
    }

    function GetName(): string
      reads this
    {
      name
    }

    function GetResult(): string
      reads this
    {
      result
    }

    /** The numbers column of the member lines. */
    function GetResultsNumbers(): (r: seq<string>)
      reads this
      ensures r == numbers
      ensures Valid() ==> r == Numbers(Rows(result))
    {
      numbers
    }

    /** The lengths column of the member lines. */
    function GetResultsLength(): (r: seq<string>)
      reads this
      ensures r == lengths
      ensures Valid() ==> r == Lengths(Rows(result))
    {
      lengths
    }

    /** The names column of the member lines. */
    function GetResultsSeqNames(): (r: seq<string>)
      reads this
      ensures r == seqNames
      ensures Valid() ==> r == SeqNames(Rows(result))
    {
      seqNames
    }

    /** The strains column of the member lines. */
    function GetStrains(): (r: seq<string>)
      reads this
      ensures r == strains
      ensures Valid() ==> r == Strains(Rows(result))
    {
      strains
    }

    /** The identities column of the member lines. */
    function GetIdentities(): (r: seq<Identity>)
      reads this
      ensures r == identities
      ensures Valid() ==> r == Identities(Rows(result))
    {
      identities
    }

    /** `get_cluster_size`: the number of member lines. */
    function GetClusterSize(): (n: nat)
      reads this
      ensures n == |numbers|
      ensures Valid() ==> n == |Rows(result)|
    {
      |numbers|
    }

    /** `get_number_of_samples`: the length of the sample list. */
    function GetNumberOfSamples(): (n: nat)
      reads this
      ensures n == |sampleList|
      ensures Valid() ==> n == |SampleList(SeqNames(Rows(result)), sampleDelimiter)|
    {
      |sampleList|
    }

    /** `parse_result`: the five lists are refilled from the body's member
        lines; nothing else changes. */
    method ParseResult()
      requires BodyOk(result)
      modifies this
      ensures AllRowsOk(Rows(result))
      ensures numbers == Numbers(Rows(result)) && lengths == Lengths(Rows(result))
      ensures seqNames == SeqNames(Rows(result)) && strains == Strains(Rows(result))
      ensures identities == Identities(Rows(result))
      ensures name == old(name) && result == old(result) && sampleList == old(sampleList)
    {
      var t := ReadMembers(result);
      numbers, lengths, seqNames, strains, identities := t.numbers, t.lengths, t.seqNames, t.strains, t.identities;
    }

    /** `get_center`: the name at the first identity entry that is the
        reference mark; nothing when there is none. Only the two lists it
        reads need to line up. */
    method GetCenter() returns (c: Option<string>)
      requires |identities| == |seqNames|
      ensures c == NameAtFirstRef(identities, seqNames)
      ensures Valid() ==> c == Center(Rows(result))
    {
      var ids := GetIdentities();
      var i := 0;
      while i < |ids|
        invariant 0 <= i <= |ids|
        invariant forall j :: 0 <= j < i ==> ids[j] != RefMark
      {
        if ids[i] == RefMark {
          return Some(seqNames[i]);
        }
        i := i + 1;
      }
      return None;
    }
  }

  // ---------------------------------------------------------------------
  // main

  /** What `main` reads from one cluster: its number of members, its number
      of samples and its centre. */
  datatype Summary = Summary(size: nat, samples: nat, center: Option<string>)

  /** Every cluster body is readable by `parse_result`. */
  predicate AllBodiesOk(texts: seq<ClusterText>) {
    forall k :: 0 <= k < |texts| ==> BodyOk(texts[k].body)
  }

  /** The summary of the cluster made from pair `t`. */
  function SummaryOf(t: ClusterText, delimiter: Option<string>): Summary
    requires BodyOk(t.body)
  {
    var rows := Rows(t.body);
    Summary(|rows|, |SampleList(SeqNames(rows), delimiter)|, Center(rows))
  }

  /** The summaries of the clusters made from the pairs, in order. */
  function Summaries(texts: seq<ClusterText>, delimiter: Option<string>): (ss: seq<Summary>)
    requires AllBodiesOk(texts)
    ensures |ss| == |texts|
  {
    seq(|texts|, k requires 0 <= k < |texts| => SummaryOf(texts[k], delimiter))
  }

  /** The size and representation test of `main`. */
  predicate Passes(s: Summary, clusterSize: int, representation: int) {
    s.size >= clusterSize && s.samples >= representation
  }

  /** The centres `main` prints for the first `n` clusters, in order. */
  function Chosen(ss: seq<Summary>, n: nat, clusterSize: int, representation: int): (cs: seq<Option<string>>)
    requires n <= |ss|
    ensures |cs| <= n
  {
    if n == 0 then []
    else
      Chosen(ss, n - 1, clusterSize, representation)
        + (if Passes(ss[n - 1], clusterSize, representation) then [ss[n - 1].center] else [])
  }

  /** The centres `main` prints for the clusters made from the pairs. */
  function Reported(texts: seq<ClusterText>, clusterSize: int, delimiter: Option<string>, representation: int): (cs: seq<Option<string>>)
    requires AllBodiesOk(texts)
    ensures |cs| <= |texts|
    ensures forall c :: c in cs <==>
      exists k :: 0 <= k < |texts| && Passes(SummaryOf(texts[k], delimiter), clusterSize, representation)
        && SummaryOf(texts[k], delimiter).center == c
  {
    var ss := Summaries(texts, delimiter);
    assert forall k :: 0 <= k < |texts| ==> ss[k] == SummaryOf(texts[k], delimiter);
    forall c ensures c in Chosen(ss, |texts|, clusterSize, representation) <==>
      exists k :: 0 <= k < |texts| && Passes(ss[k], clusterSize, representation) && ss[k].center == c
    {
      ChosenMembers(ss, |texts|, clusterSize, representation, c);
    }
    Chosen(ss, |texts|, clusterSize, representation)
  }

  /** A centre is printed exactly when some cluster passing the test has it. */
  lemma {:induction false} ChosenMembers(ss: seq<Summary>, n: nat, clusterSize: int, representation: int, c: Option<string>)
    requires n <= |ss|
    ensures c in Chosen(ss, n, clusterSize, representation) <==>
      exists k :: 0 <= k < n && Passes(ss[k], clusterSize, representation) && ss[k].center == c
  {
    if n > 0 {
      ChosenMembers(ss, n - 1, clusterSize, representation, c);
      var last := n - 1;
      if Passes(ss[last], clusterSize, representation) && ss[last].center == c {
        assert c in Chosen(ss, n, clusterSize, representation);
      }
    }
  }

  /** When every cluster passes the test, every centre is printed. */
  lemma {:induction false} ChosenAll(ss: seq<Summary>, n: nat, clusterSize: int, representation: int)
    requires n <= |ss|
    requires forall k :: 0 <= k < n ==> Passes(ss[k], clusterSize, representation)
    ensures |Chosen(ss, n, clusterSize, representation)| == n
  {
    if n > 0 {
      ChosenAll(ss, n - 1, clusterSize, representation);
    }
  }

  /** Every cluster is reported when both minimums are 1 and every cluster
      has a member. */
  lemma ReportedAll(texts: seq<ClusterText>, delimiter: Option<string>)
    requires AllBodiesOk(texts)
    requires forall k :: 0 <= k < |texts| ==> |Rows(texts[k].body)| >= 1
    ensures |Reported(texts, 1, delimiter, 1)| == |texts|
  {
    var ss := Summaries(texts, delimiter);
    forall k | 0 <= k < |texts| ensures Passes(ss[k], 1, 1) {
      SampleCountBounds(SeqNames(Rows(texts[k].body)), delimiter);
    }
    ChosenAll(ss, |texts|, 1, 1);
  }

  /** Stricter minimums print no more centres. */
  lemma {:induction false} ChosenAntitone(ss: seq<Summary>, n: nat, size: int, size': int, rep: int, rep': int)
    requires n <= |ss|
    requires size <= size' && rep <= rep'
    ensures |Chosen(ss, n, size', rep')| <= |Chosen(ss, n, size, rep)|
  {
    if n > 0 {
      ChosenAntitone(ss, n - 1, size, size', rep, rep');
    }
  }

  /** Cluster object `c` was made from pair `t` with the given delimiter. */
  ghost predicate Built(c: Cluster, t: ClusterText, delimiter: Option<string>)
    reads c
  {
    && c.result == t.body && c.sampleDelimiter == delimiter
    && Parsed(t.body, delimiter, c.numbers, c.lengths, c.seqNames, c.strains, c.identities, c.sampleList)
  }

  /** Each object's identities and names line up, as `get_center` needs. */
  ghost predicate Aligned(clusters: seq<Cluster>)
    reads clusters
  {
    forall j :: 0 <= j < |clusters| ==> |clusters[j].identities| == |clusters[j].seqNames|
  }

  /** What `main` reads from each object through `get_cluster_size`,
      `get_number_of_samples` and `get_center`. */
  function Observed(clusters: seq<Cluster>): (ss: seq<Summary>)
    requires Aligned(clusters)
    reads clusters
    ensures |ss| == |clusters|
  {
    seq(|clusters|, k requires 0 <= k < |clusters| && |clusters[k].identities| == |clusters[k].seqNames|
                      reads clusters =>
      Summary(|clusters[k].numbers|, |clusters[k].sampleList|,
              NameAtFirstRef(clusters[k].identities, clusters[k].seqNames)))
  }

  /** An object built from pair `t` shows `main` the pair's summary. */
  lemma BuiltSummary(c: Cluster, t: ClusterText, delimiter: Option<string>)
    requires BodyOk(t.body) && Built(c, t, delimiter)
    ensures |c.identities| == |c.seqNames|
    ensures Summary(|c.numbers|, |c.sampleList|, NameAtFirstRef(c.identities, c.seqNames)) == SummaryOf(t, delimiter)
  {
  }

  /** Objects built one per pair show `main` the pairs' summaries. */
  lemma ObservedSummaries(clusters: seq<Cluster>, texts: seq<ClusterText>, delimiter: Option<string>)
    requires AllBodiesOk(texts) && |clusters| == |texts|
    requires forall j :: 0 <= j < |texts| ==> Built(clusters[j], texts[j], delimiter)
    ensures Aligned(clusters)
    ensures Observed(clusters) == Summaries(texts, delimiter)
  {
    forall j | 0 <= j < |clusters|
      ensures |clusters[j].identities| == |clusters[j].seqNames|
      ensures Summary(|clusters[j].numbers|, |clusters[j].sampleList|,
                      NameAtFirstRef(clusters[j].identities, clusters[j].seqNames)) == SummaryOf(texts[j], delimiter)
    {
      BuiltSummary(clusters[j], texts[j], delimiter);
    }
  }

  /** The reading loop of `main`: one cluster object per pair. */
  method BuildClusters(texts: seq<ClusterText>, delimiter: Option<string>) returns (clusters: seq<Cluster>)
    requires AllBodiesOk(texts)
    ensures |clusters| == |texts|
    ensures forall j :: 0 <= j < |texts| ==> Built(clusters[j], texts[j], delimiter)
  {
    clusters := [];
    for k := 0 to |texts|
      invariant |clusters| == k
      invariant forall j :: 0 <= j < k ==> Built(clusters[j], texts[j], delimiter)
    {
      var c := new Cluster(texts[k].header, texts[k].body, delimiter);
      clusters := clusters + [c];
    }
  }

  /** The printing loop of `main` over the cluster objects. */
  method ReportCenters(clusters: seq<Cluster>, clusterSize: int, representation: int)
    returns (centers: seq<Option<string>>)
    requires Aligned(clusters)
    ensures centers == Chosen(Observed(clusters), |clusters|, clusterSize, representation)
  {
    centers := [];
    for k := 0 to |clusters|
      invariant centers == Chosen(Observed(clusters), k, clusterSize, representation)
    {
      var cluster := clusters[k];
      if cluster.GetClusterSize() >= clusterSize && cluster.GetNumberOfSamples() >= representation {
        var center := cluster.GetCenter();
        centers := centers + [center];
      }
    }
  }

  /** The whole script on a cluster file: read the clusters, then report the
      centres of those that pass both minimums. A representation other than
      1 without a delimiter stops the script before it reads the file. */
  method ReportClusters(lines: seq<string>, clusterSize: int, delimiter: Option<string>, representation: int)
    returns (centers: seq<Option<string>>)
    requires representation != 1 ==> delimiter.Some?
    requires AllBodiesOk(ClusterTexts(lines))
    ensures centers == Reported(ClusterTexts(lines), clusterSize, delimiter, representation)
  {
    var pairs := ReadCDHITTable(lines);
    var clusters := BuildClusters(pairs, delimiter);
    ObservedSummaries(clusters, pairs, delimiter);
    centers := ReportCenters(clusters, clusterSize, representation);
  }
}
