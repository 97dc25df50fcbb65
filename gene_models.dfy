/** The gene-model side of parseBLASTtable.py: the `Gene` record, the
    reading of a Phytozome GFF3 file into `gene_dict`/`pacid_to_name`, and
    the exon-count filter of the exon report. GFF3 lines are the raw text
    lines of the file, each with its final newline. */
module GeneModels {
  import opened PyStrings

  /** One gene model: its name, its PAC identifier and how many CDS
      features have been registered for it. */
  class Gene {
    var cdsCount: nat
    var name: string
    var pacid: string

    /** A new gene has no CDS yet (its name and identifier are set next). */
    constructor ()
      ensures cdsCount == 0 && name == "" && pacid == ""
    {
      cdsCount := 0;
      name := "";
      pacid := "";
    }

    method SetName(name: string)
      modifies this`name
      ensures this.name == name
    {
      this.name := name;
    }

    method SetPacid(pacid: string)
      modifies this`pacid
      ensures this.pacid == pacid
    {
      this.pacid := pacid;
    }

    /** Registers one more CDS feature; nothing else of the gene changes. */
    method AddCds()
      modifies this`cdsCount
      ensures cdsCount == old(cdsCount) + 1
    {
      cdsCount := cdsCount + 1;
    }

    function GetCdsCount(): nat
      reads this
    {
      cdsCount
    }
  }

  /** Column 8 (the attribute list) of a feature line, split at `;`. */
  function Attributes(line: string): seq<string>
    requires |Words(line)| >= 9
  {
    Split(Words(line)[8], ";")
  }

  /** A line the reader can take without an IndexError: it is non-empty; a
      non-comment line has a type column; an `mRNA` line has `pacid=` in its
      third and `Parent=` in its fifth attribute; a `CDS` line has `pacid=`
      in its third attribute. */
  predicate FeatureOk(line: string) {
    |line| > 0 &&
    (line[0] != '#' ==>
      var w := Words(line);
      |w| >= 3 &&
      (w[2] == "mRNA" ==>
        |w| >= 9 && var a := Split(w[8], ";");
        |a| >= 5 && |Split(a[2], "pacid=")| >= 2 && |Split(a[4], "Parent=")| >= 2) &&
      (w[2] == "CDS" ==>
        |w| >= 9 && var a := Split(w[8], ";");
        |a| >= 3 && |Split(a[2], "pacid=")| >= 2))
  }

  predicate IsMrna(line: string)
    requires FeatureOk(line)
  {
    line[0] != '#' && Words(line)[2] == "mRNA"
  }

  predicate IsCds(line: string)
    requires FeatureOk(line)
  {
    line[0] != '#' && Words(line)[2] == "CDS"
  }

  /** `line.split()[8].split(";")[2].split("pacid=")[1]`. */
  function PacidOf(line: string): string
    requires FeatureOk(line) && (IsMrna(line) || IsCds(line))
  {
    Split(Attributes(line)[2], "pacid=")[1]
  }

  /** `line.split()[8].split(";")[4].split("Parent=")[1]`. */
  function ParentOf(line: string): string
    requires FeatureOk(line) && IsMrna(line)
  {
    Split(Attributes(line)[4], "Parent=")[1]
  }

  predicate AllFeaturesOk(lines: seq<string>) {
    forall i :: 0 <= i < |lines| ==> FeatureOk(lines[i])
  }

  /** The identifiers that some `mRNA` line of `lines` registers. */
  function MrnaPacids(lines: seq<string>): (ids: set<string>)
    requires AllFeaturesOk(lines)
    ensures forall i :: 0 <= i < |lines| && IsMrna(lines[i]) ==> PacidOf(lines[i]) in ids
  {
    if |lines| == 0 then {}
    else
      var last := lines[|lines| - 1];
      assert forall i :: 0 <= i < |lines| - 1 ==> lines[..|lines| - 1][i] == lines[i];
      MrnaPacids(lines[..|lines| - 1]) + (if IsMrna(last) then {PacidOf(last)} else {})
  }

  /** Every registered identifier comes from some `mRNA` line. */
  lemma {:induction false} MrnaPacidsFromLines(lines: seq<string>, p: string)
    requires AllFeaturesOk(lines) && p in MrnaPacids(lines)
    ensures exists i :: 0 <= i < |lines| && IsMrna(lines[i]) && PacidOf(lines[i]) == p
  {
    var n := |lines| - 1;
    var pre := lines[..n];
    assert forall i :: 0 <= i < n ==> pre[i] == lines[i];
    if IsMrna(lines[n]) && PacidOf(lines[n]) == p {
    } else {
      MrnaPacidsFromLines(pre, p);
      var i :| 0 <= i < n && IsMrna(pre[i]) && PacidOf(pre[i]) == p;
      assert lines[i] == pre[i];
    }
  }

  /** The number of `CDS` lines for `pacid` after its last `mRNA` line: the
      count held by the gene object that `gene_dict[pacid]` names at the end. */
  function CdsCount(lines: seq<string>, pacid: string): nat
    requires AllFeaturesOk(lines)
  {
    if |lines| == 0 then 0
    else
      var last := lines[|lines| - 1];
      if IsMrna(last) && PacidOf(last) == pacid then 0
      else CdsCount(lines[..|lines| - 1], pacid) + (if IsCds(last) && PacidOf(last) == pacid then 1 else 0)
  }

  /** The parent name given by the last `mRNA` line for `pacid`. */
  function LastParent(lines: seq<string>, pacid: string): string
    requires AllFeaturesOk(lines)
  {
    if |lines| == 0 then ""
    else
      var last := lines[|lines| - 1];
      if IsMrna(last) && PacidOf(last) == pacid then ParentOf(last)
      else LastParent(lines[..|lines| - 1], pacid)
  }

  /** Every line can be read, and every `CDS` line refers to a gene that an
      earlier `mRNA` line registered (otherwise `gene_dict[pacid]` fails). */
  predicate GffWellFormed(lines: seq<string>) {
    AllFeaturesOk(lines) &&
    forall i :: 0 <= i < |lines| && IsCds(lines[i]) ==> PacidOf(lines[i]) in MrnaPacids(lines[..i])
  }

  /** The registered identifiers after one more line. */
  lemma GffStep(lines: seq<string>, i: int)
    requires AllFeaturesOk(lines) && 0 <= i < |lines|
    ensures AllFeaturesOk(lines[..i]) && AllFeaturesOk(lines[..i + 1])
    ensures MrnaPacids(lines[..i + 1]) ==
      MrnaPacids(lines[..i]) + (if IsMrna(lines[i]) then {PacidOf(lines[i])} else {})
  {
    assert lines[..i + 1][..i] == lines[..i];
    assert lines[..i + 1][i] == lines[i];
  }

  /** The name and CDS count of `p` after one more line. */
  lemma GffStepAt(lines: seq<string>, i: int, p: string)
    requires AllFeaturesOk(lines) && 0 <= i < |lines|
    ensures AllFeaturesOk(lines[..i]) && AllFeaturesOk(lines[..i + 1])
    ensures LastParent(lines[..i + 1], p) ==
      if IsMrna(lines[i]) && PacidOf(lines[i]) == p then ParentOf(lines[i]) else LastParent(lines[..i], p)
    ensures CdsCount(lines[..i + 1], p) ==
      if IsMrna(lines[i]) && PacidOf(lines[i]) == p then 0
      else CdsCount(lines[..i], p) + (if IsCds(lines[i]) && PacidOf(lines[i]) == p then 1 else 0)
  {
    assert lines[..i + 1][..i] == lines[..i];
    assert lines[..i + 1][i] == lines[i];
  }

  /** `gene_dict` and `pacid_to_name` after reading `lines`: one distinct
      gene per registered identifier, carrying that identifier, the parent
      name of its last `mRNA` line and the number of `CDS` lines since. */
  ghost predicate Registry(geneDict: map<string, Gene>, pacidToName: map<string, string>, lines: seq<string>)
    reads geneDict.Values
    requires AllFeaturesOk(lines)
  {
    && geneDict.Keys == MrnaPacids(lines) && pacidToName.Keys == geneDict.Keys
    && (forall p :: p in geneDict ==>
          && geneDict[p].pacid == p
          && geneDict[p].name == LastParent(lines, p)
          && pacidToName[p] == LastParent(lines, p)
          && geneDict[p].cdsCount == CdsCount(lines, p))
    && (forall p, p' :: p in geneDict && p' in geneDict && p != p' ==> geneDict[p] != geneDict[p'])
  }

  /** A comment line, or a feature that is neither `mRNA` nor `CDS`,
      changes nothing. */
  lemma RegistrySkip(geneDict: map<string, Gene>, pacidToName: map<string, string>, lines: seq<string>, i: int)
    requires AllFeaturesOk(lines) && 0 <= i < |lines| && !IsMrna(lines[i]) && !IsCds(lines[i])
    requires AllFeaturesOk(lines[..i]) && Registry(geneDict, pacidToName, lines[..i])
    ensures AllFeaturesOk(lines[..i + 1]) && Registry(geneDict, pacidToName, lines[..i + 1])
  {
    GffStep(lines, i);
    forall p | p in geneDict
      ensures && geneDict[p].name == LastParent(lines[..i + 1], p)
              && geneDict[p].cdsCount == CdsCount(lines[..i + 1], p)
    {
      GffStepAt(lines, i, p);
    }
  }

  /** An `mRNA` line: a new gene, named after its parent, replaces any
      earlier one for its identifier. */
  method RegisterMrna(geneDict: map<string, Gene>, pacidToName: map<string, string>, lines: seq<string>, i: int)
    returns (geneDict': map<string, Gene>, pacidToName': map<string, string>)
    requires AllFeaturesOk(lines) && 0 <= i < |lines| && IsMrna(lines[i])
    requires AllFeaturesOk(lines[..i]) && Registry(geneDict, pacidToName, lines[..i])
    ensures AllFeaturesOk(lines[..i + 1]) && Registry(geneDict', pacidToName', lines[..i + 1])
    ensures forall p :: p in geneDict' ==> (p in geneDict && geneDict'[p] == geneDict[p]) || fresh(geneDict'[p])
  {
    var line := lines[i];
    GffStep(lines, i);
    var newGene := new Gene();
    newGene.SetName(ParentOf(line));
    newGene.SetPacid(PacidOf(line));
    geneDict' := geneDict[newGene.pacid := newGene];
    pacidToName' := pacidToName[newGene.pacid := newGene.name];
    forall p | p in geneDict'
      ensures && geneDict'[p].pacid == p
              && geneDict'[p].name == LastParent(lines[..i + 1], p)
              && pacidToName'[p] == LastParent(lines[..i + 1], p)
              && geneDict'[p].cdsCount == CdsCount(lines[..i + 1], p)
    {
      GffStepAt(lines, i, p);
    }
    forall p, p' | p in geneDict' && p' in geneDict' && p != p' ensures geneDict'[p] != geneDict'[p'] {
      if p != newGene.pacid && p' != newGene.pacid {
        assert geneDict'[p] == geneDict[p] && geneDict'[p'] == geneDict[p'];
      }
    }
    assert geneDict'.Keys == MrnaPacids(lines[..i + 1]);
  }

  /** A `CDS` line: the gene registered for its identifier counts one more
      CDS. */
  method RegisterCds(geneDict: map<string, Gene>, pacidToName: map<string, string>, lines: seq<string>, i: int)
    requires AllFeaturesOk(lines) && 0 <= i < |lines| && IsCds(lines[i])
    requires AllFeaturesOk(lines[..i]) && Registry(geneDict, pacidToName, lines[..i])
    requires PacidOf(lines[i]) in geneDict
    modifies geneDict[PacidOf(lines[i])]
    ensures AllFeaturesOk(lines[..i + 1]) && Registry(geneDict, pacidToName, lines[..i + 1])
  {
    GffStep(lines, i);
    var gene := geneDict[PacidOf(lines[i])];
    gene.AddCds();
    forall p | p in geneDict
      ensures && geneDict[p].name == LastParent(lines[..i + 1], p)
              && pacidToName[p] == LastParent(lines[..i + 1], p)
              && geneDict[p].cdsCount == CdsCount(lines[..i + 1], p)
    {
      GffStepAt(lines, i, p);
    }
  }

  /** `parse_gff3`: one pass over the GFF3 lines. A new `Gene` per `mRNA`
      line (replacing any earlier one for the same identifier), one more CDS
      on the registered gene per `CDS` line, comment lines skipped. */
  method ParseGff3(lines: seq<string>) returns (geneDict: map<string, Gene>, pacidToName: map<string, string>)
    requires GffWellFormed(lines)
    ensures geneDict.Keys == MrnaPacids(lines) && pacidToName.Keys == geneDict.Keys
    ensures forall p :: p in geneDict ==> fresh(geneDict[p])
    ensures forall p :: p in geneDict ==>
      && geneDict[p].pacid == p
      && geneDict[p].name == LastParent(lines, p)
      && pacidToName[p] == LastParent(lines, p)
      && geneDict[p].cdsCount == CdsCount(lines, p)
    ensures forall p, p' :: p in geneDict && p' in geneDict && p != p' ==> geneDict[p] != geneDict[p']
  {
    geneDict, pacidToName := map[], map[];
    var i := 0;
    assert lines[..0] == [];
    while i < |lines|
      invariant 0 <= i <= |lines|
      invariant AllFeaturesOk(lines[..i]) && Registry(geneDict, pacidToName, lines[..i])
      invariant forall p :: p in geneDict ==> fresh(geneDict[p])
    {
      var line := lines[i];
      if line[0] != '#' && IsMrna(line) {
        geneDict, pacidToName := RegisterMrna(geneDict, pacidToName, lines, i);
      } else if line[0] != '#' && IsCds(line) {
        RegisterCds(geneDict, pacidToName, lines, i);
      } else {
        RegistrySkip(geneDict, pacidToName, lines, i);
      }
      i := i + 1;
    }
    assert lines[..i] == lines;
  }

  /** The exon report: the identifiers whose gene has at least `minExons`
      CDS features. */
  function ExonReport(geneDict: map<string, Gene>, minExons: int): (pacids: set<string>)
    reads geneDict.Values
    ensures forall p :: p in pacids <==> p in geneDict && geneDict[p].cdsCount >= minExons
  {
    set p | p in geneDict && geneDict[p].GetCdsCount() >= minExons
  }

  /** Raising the minimum can only shrink the exon report. */
  lemma ExonReportAntitone(geneDict: map<string, Gene>, lo: int, hi: int)
    requires lo <= hi
    ensures ExonReport(geneDict, hi) <= ExonReport(geneDict, lo)
  {
  }
}
