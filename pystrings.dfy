/** The Python 2 `str` operations the two scripts rely on: `split()` on
    whitespace, `split(sep)` on a non-empty separator, `strip()` (through
    blankness), `lstrip(c)`, `startswith` and `''.join`. */
module PyStrings {
  import opened Wrappers

  /** Python 2 `str.isspace` characters: space, \t, \n, \v, \f and \r. */
  predicate IsSpace(c: char) {
    c == ' ' || 9 <= c as int <= 13
  }

  /** `not s.strip()`: nothing but whitespace. */
  predicate Blank(s: string) {
    forall i :: 0 <= i < |s| ==> IsSpace(s[i])
  }

  /** Length of the run of non-whitespace characters that starts `s`. */
  function WordLength(s: string): (n: nat)
    ensures n <= |s|
  {
    if |s| == 0 || IsSpace(s[0]) then 0 else 1 + WordLength(s[1..])
  }

  /** The run is maximal: no whitespace inside it, whitespace right after. */
  lemma {:induction false} WordLengthRun(s: string)
    ensures forall i :: 0 <= i < WordLength(s) ==> !IsSpace(s[i])
    ensures WordLength(s) < |s| ==> IsSpace(s[WordLength(s)])
  {
    if |s| > 0 && !IsSpace(s[0]) {
      WordLengthRun(s[1..]);
      forall i | 0 <= i < WordLength(s) ensures !IsSpace(s[i]) {
        if i > 0 { assert s[i] == s[1..][i - 1]; }
      }
    }
  }

  /** `s.split()`: the maximal runs of non-whitespace characters, in order. */
  function Words(s: string): seq<string>
    decreases |s|
  {
    if |s| == 0 then []
    else if IsSpace(s[0]) then Words(s[1..])
    else
      var n := WordLength(s);
      [s[..n]] + Words(s[n..])
  }

  /** Every field of `split()` is non-empty and holds no whitespace. */
  lemma {:induction false} WordsFields(s: string)
    ensures forall k :: 0 <= k < |Words(s)| ==> |Words(s)[k]| > 0
    ensures forall k, i :: 0 <= k < |Words(s)| && 0 <= i < |Words(s)[k]| ==> !IsSpace(Words(s)[k][i])
    decreases |s|
  {
    if |s| > 0 {
      if IsSpace(s[0]) {
        WordsFields(s[1..]);
      } else {
        var n := WordLength(s);
        WordLengthRun(s);
        WordsFields(s[n..]);
        var w := Words(s);
        assert w == [s[..n]] + Words(s[n..]);
        forall k | 0 <= k < |w| ensures |w[k]| > 0 {
          if k > 0 { assert w[k] == Words(s[n..])[k - 1]; }
        }
        forall k, i | 0 <= k < |w| && 0 <= i < |w[k]| ensures !IsSpace(w[k][i]) {
          if k > 0 { assert w[k] == Words(s[n..])[k - 1]; }
        }
      }
    }
  }

  /** A line yields no fields under `split()` exactly when it is blank. */
  lemma {:induction false} WordsEmptyIffBlank(s: string)
    ensures Words(s) == [] <==> Blank(s)
    decreases |s|
  {
    if |s| > 0 {
      if IsSpace(s[0]) {
        WordsEmptyIffBlank(s[1..]);
        if Blank(s[1..]) {
          forall i | 0 <= i < |s| ensures IsSpace(s[i]) {
            if i > 0 { assert s[i] == s[1..][i - 1]; }
          }
        } else {
          var j :| 0 <= j < |s[1..]| && !IsSpace(s[1..][j]);
          assert !IsSpace(s[j + 1]);
        }
      } else {
        assert !Blank(s);
      }
    }
  }

  /** `sep` occurs in `s` starting at position `j`. */
  predicate OccursAt(s: string, sep: string, j: nat) {
    j + |sep| <= |s| && s[j..j + |sep|] == sep
  }

  /** `sep` occurs nowhere in `s`. */
  predicate Free(s: string, sep: string) {
    forall j :: 0 <= j <= |s| ==> !OccursAt(s, sep, j)
  }

  /** `s.find(sep, i)`: the leftmost occurrence at or after `i`. */
  function FindFrom(s: string, sep: string, i: nat): (r: Option<nat>)
    requires i <= |s|
    ensures r.Some? ==> i <= r.value && r.value + |sep| <= |s|
    decreases |s| - i
  {
    if OccursAt(s, sep, i) then Some(i)
    else if i == |s| then None
    else FindFrom(s, sep, i + 1)
  }

  /** The occurrence found is the leftmost one at or after `i`, and there
      is none there when nothing is found. */
  lemma {:induction false} FindFromLeftmost(s: string, sep: string, i: nat)
    requires i <= |s|
    ensures FindFrom(s, sep, i).Some? ==> OccursAt(s, sep, FindFrom(s, sep, i).value)
    ensures FindFrom(s, sep, i).Some? ==>
      forall j: nat :: i <= j < FindFrom(s, sep, i).value ==> !OccursAt(s, sep, j)
    ensures FindFrom(s, sep, i).None? ==> forall j: nat :: i <= j ==> !OccursAt(s, sep, j)
    decreases |s| - i
  {
    if !OccursAt(s, sep, i) && i < |s| {
      FindFromLeftmost(s, sep, i + 1);
    }
  }

  /** `s.find(sep)`, with `None` for Python's -1. */
  function Find(s: string, sep: string): (r: Option<nat>)
    ensures r.Some? ==> r.value + |sep| <= |s|
  {
    FindFrom(s, sep, 0)
  }

  /** `find` returns the leftmost occurrence, and fails exactly when `sep`
      does not occur. */
  lemma FindLeftmost(s: string, sep: string)
    ensures Find(s, sep).Some? ==> OccursAt(s, sep, Find(s, sep).value)
    ensures Find(s, sep).Some? ==> forall j: nat :: j < Find(s, sep).value ==> !OccursAt(s, sep, j)
    ensures Find(s, sep).None? <==> Free(s, sep)
  {
    FindFromLeftmost(s, sep, 0);
  }

  /** An occurrence inside a prefix is an occurrence in the whole string. */
  lemma OccursInPrefix(s: string, sep: string, n: nat, j: nat)
    requires n <= |s|
    requires OccursAt(s[..n], sep, j)
    ensures OccursAt(s, sep, j)
  {
    assert s[..n][j..j + |sep|] == s[j..j + |sep|];
  }

  /** `s.split(sep)` for a non-empty separator: the pieces between the
      non-overlapping occurrences of `sep`, scanned left to right. */
  function Split(s: string, sep: string): (parts: seq<string>)
    requires |sep| > 0
    ensures |parts| >= 1
    decreases |s|
  {
    match Find(s, sep)
    case None => [s]
    case Some(i) => [s[..i]] + Split(s[i + |sep|..], sep)
  }

  /** No piece of `split(sep)` contains `sep`. */
  lemma {:induction false} SplitPiecesFree(s: string, sep: string)
    requires |sep| > 0
    ensures forall k :: 0 <= k < |Split(s, sep)| ==> Free(Split(s, sep)[k], sep)
    decreases |s|
  {
    FindLeftmost(s, sep);
    match Find(s, sep)
    case None =>
    case Some(i) =>
      var rest := s[i + |sep|..];
      SplitPiecesFree(rest, sep);
      assert Free(s[..i], sep) by {
        forall j | 0 <= j <= i ensures !OccursAt(s[..i], sep, j) {
          if OccursAt(s[..i], sep, j) { OccursInPrefix(s, sep, i, j); }
        }
      }
      var parts := Split(s, sep);
      assert parts == [s[..i]] + Split(rest, sep);
      forall k | 0 <= k < |parts| ensures Free(parts[k], sep) {
        if k > 0 { assert parts[k] == Split(rest, sep)[k - 1]; }
      }
  }

  /** `sep.join(parts)`. */
  function Join(parts: seq<string>, sep: string): string {
    if |parts| == 0 then ""
    else if |parts| == 1 then parts[0]
    else parts[0] + sep + Join(parts[1..], sep)
  }

  /** Splitting loses nothing: joining the pieces again gives `s` back. */
  lemma {:induction false} JoinSplit(s: string, sep: string)
    requires |sep| > 0
    ensures Join(Split(s, sep), sep) == s
    decreases |s|
  {
    FindLeftmost(s, sep);
    match Find(s, sep)
    case None =>
    case Some(i) =>
      var rest := s[i + |sep|..];
      var parts := Split(s, sep);
      assert parts == [s[..i]] + Split(rest, sep);
      assert |parts| >= 2 && parts[1..] == Split(rest, sep);
      calc {
        Join(parts, sep);
        parts[0] + sep + Join(parts[1..], sep);
        { JoinSplit(rest, sep); }
        s[..i] + sep + rest;
        { assert s[i..i + |sep|] == sep; }
        s[..i] + s[i..i + |sep|] + s[i + |sep|..];
        s;
      }
  }

  /** `s.split(sep)[0]`: `s` cut at the first occurrence of `sep`. */
  function Head(s: string, sep: string): string
    requires |sep| > 0
  {
    Split(s, sep)[0]
  }

  /** The head is a prefix of `s` free of `sep`, `sep` follows it whenever it
      is shorter than `s`, and it is all of `s` exactly when `sep` does not
      occur. */
  lemma HeadPrefix(s: string, sep: string)
    requires |sep| > 0
    ensures Head(s, sep) <= s
    ensures Free(Head(s, sep), sep)
    ensures |Head(s, sep)| < |s| ==> OccursAt(s, sep, |Head(s, sep)|)
    ensures Head(s, sep) == s <==> Free(s, sep)
  {
    FindLeftmost(s, sep);
    SplitPiecesFree(s, sep);
  }

  /** `s.lstrip(c)` for one character: `s` without its leading run of `c`. */
  function LStrip(s: string, c: char): string {
    if |s| > 0 && s[0] == c then LStrip(s[1..], c) else s
  }

  /** `lstrip` drops exactly the leading run of `c`: what is left is a
      suffix of `s` that does not start with `c`, and everything dropped
      is `c`. */
  lemma {:induction false} LStripSuffix(s: string, c: char)
    ensures |LStrip(s, c)| <= |s| && LStrip(s, c) == s[|s| - |LStrip(s, c)|..]
    ensures |LStrip(s, c)| > 0 ==> LStrip(s, c)[0] != c
    ensures forall i :: 0 <= i < |s| - |LStrip(s, c)| ==> s[i] == c
  {
    if |s| > 0 && s[0] == c {
      LStripSuffix(s[1..], c);
      var t := LStrip(s, c);
      assert s[1..][|s| - 1 - |t|..] == s[|s| - |t|..];
      forall i | 0 <= i < |s| - |t| ensures s[i] == c {
        if i > 0 { assert s[i] == s[1..][i - 1]; }
      }
    }
  }

  /** `''.join(parts)`. */
  function Concat(parts: seq<string>): string {
    if |parts| == 0 then "" else Concat(parts[..|parts| - 1]) + parts[|parts| - 1]
  }

  /** `s.startswith(p)`. */
  predicate StartsWith(s: string, p: string) {
    p <= s
  }

  /** `s[:n]` for a non-negative `n`: the first `n` characters, or all of `s`. */
  function Take(s: string, n: nat): (p: string)
    ensures p <= s
    ensures |p| == if |s| < n then |s| else n
  {
    if |s| < n then s else s[..n]
  }
}
