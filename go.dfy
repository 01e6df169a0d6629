// A Gene Ontology annotation of a protein, as held in memory: six text
// fields, stored once by the constructor and printed as one tab-separated
// line whose field order differs from the constructor's argument order.

module GeneOntology {
  import opened Text

  datatype GO = GO(evidence: string, goId: string, goName: string,
                   proteinSymbol: string, proteinId: string, taxon: string)

  /** The constructor, in its own argument order. */
  function NewGO(proteinSymbol: string, proteinId: string, goId: string, goName: string,
                 evidence: string, proteinTaxonName: string): (g: GO)
    ensures g.proteinSymbol == proteinSymbol && g.proteinId == proteinId
    ensures g.goId == goId && g.goName == goName
    ensures g.evidence == evidence && g.taxon == proteinTaxonName
  {
    GO(evidence, goId, goName, proteinSymbol, proteinId, proteinTaxonName)
  }

  /** The fields in the order `__str__` prints them. */
  function PrintedFields(g: GO): seq<string>
  {
    [g.evidence, g.goId, g.goName, g.proteinSymbol, g.proteinId, g.taxon]
  }

  /** `__str__`. */
  function ToString(g: GO): string
  {
    g.evidence + "\t" + g.goId + "\t" + g.goName + "\t" + g.proteinSymbol + "\t" + g.proteinId + "\t" + g.taxon
  }

  /**
   * The line is the printed fields joined by tabs; when no field holds a
   * tab it splits into exactly those six fields (five tabs), so the
   * annotation can be read back.
   */
  lemma ToStringFields(g: GO)
    ensures ToString(g) == Join(PrintedFields(g), "\t")
    ensures Free(PrintedFields(g), '\t') ==> Split(ToString(g), '\t') == PrintedFields(g)
  {
    var f := PrintedFields(g);
    JoinAppend(f[..1], "\t", f[1]);
    assert f[..1] + [f[1]] == f[..2];
    JoinAppend(f[..2], "\t", f[2]);
    assert f[..2] + [f[2]] == f[..3];
    JoinAppend(f[..3], "\t", f[3]);
    assert f[..3] + [f[3]] == f[..4];
    JoinAppend(f[..4], "\t", f[4]);
    assert f[..4] + [f[4]] == f[..5];
    JoinAppend(f[..5], "\t", f[5]);
    assert f[..5] + [f[5]] == f;
    if Free(f, '\t') {
      SplitJoin(f, '\t');
    }
  }

  /** Reading a printed annotation back yields the one that was built. */
  lemma ParseBack(proteinSymbol: string, proteinId: string, goId: string, goName: string,
                  evidence: string, proteinTaxonName: string)
    requires Free([proteinSymbol, proteinId, goId, goName, evidence, proteinTaxonName], '\t')
    ensures var p := Split(ToString(NewGO(proteinSymbol, proteinId, goId, goName, evidence, proteinTaxonName)), '\t');
            |p| == 6 && NewGO(p[3], p[4], p[1], p[2], p[0], p[5])
                        == NewGO(proteinSymbol, proteinId, goId, goName, evidence, proteinTaxonName)
  {
    var g := NewGO(proteinSymbol, proteinId, goId, goName, evidence, proteinTaxonName);
    var args := [proteinSymbol, proteinId, goId, goName, evidence, proteinTaxonName];
    assert Free(PrintedFields(g), '\t') by {
      assert forall i :: 0 <= i < 6 ==> PrintedFields(g)[i] in args;
    }
    ToStringFields(g);
  }
}
