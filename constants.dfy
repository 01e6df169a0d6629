// The fixed vocabularies and line grammars of the DGRP variant catalogue:
// method keywords, file extensions, mutation kinds and their tags, the
// regular expressions for chromosome, position, identifier and alleles, the
// genotype-to-association map and the effect categories.
//
// Each `^...$` expression is matched by Python's `re`, whose `$` also
// matches just before one final "\n"; `.` and the character classes used
// never match "\n".  So a field matches when its text, with one final
// newline dropped, matches the pattern body in full.

module Constants {
  import opened Text
  import opened Runtime

  // ---------------------------------------------------------------- keywords

  const BOOLEAN_TYPE_STRING: string := "boolean"

  const MEAN_KEYWORD: string := "MEAN"
  const IQR_KEYWORD: string := "IQR"
  const IQR_15_KEYWORD: string := "1.5IQR"
  const MEDIAN_KEYWORD: string := "MEDIAN"
  const METHODS_LIST: seq<string> := [MEAN_KEYWORD, IQR_KEYWORD, IQR_15_KEYWORD, MEDIAN_KEYWORD]

  const EXTENSION_LIST: seq<string> := ["ODS", "XLS", "XLSX", "TXT", "CSV"]

  /** The engine URL prefix put before a database file path. */
  const PATH_SQL_BASE: string := "sqlite:///"

  // ---------------------------------------------------------- mutation kinds

  /** The four kinds of variant of the catalogue (`DGRP_LIST_MUTATION`). */
  datatype MutationKind = SNP | INS | DEL | MNP

  /** The tag of a kind: its name in identifiers and its polymorphic identity. */
  function Tag(k: MutationKind): string
  {
    match k
    case SNP => "SNP"
    case INS => "INS"
    case DEL => "DEL"
    case MNP => "MNP"
  }

  const DGRP_LIST_MUTATION: seq<string> := ["SNP", "INS", "DEL", "MNP"]

  /** The kind a tag names, if any. */
  function KindOfTag(t: string): (r: Option<MutationKind>)
    ensures r.Some? <==> t in DGRP_LIST_MUTATION
    ensures r.Some? ==> Tag(r.value) == t
  {
    if t == "SNP" then Some(SNP)
    else if t == "INS" then Some(INS)
    else if t == "DEL" then Some(DEL)
    else if t == "MNP" then Some(MNP)
    else None
  }

  /** Tags and kinds are in one-to-one correspondence. */
  lemma TagRoundTrip(k: MutationKind)
    ensures Tag(k) in DGRP_LIST_MUTATION && KindOfTag(Tag(k)) == Some(k)
  {
  }

  // ------------------------------------------------------------ field grammar

  /** The text a `^...$` pattern body must match: one final "\n" dropped. */
  function DropFinalNewline(s: string): (r: string)
    ensures r == s || (s == r + "\n")
  {
    if |s| > 0 && s[|s| - 1] == '\n' then s[..|s| - 1] else s
  }

  const CHROMOSOMES: seq<string> := ["2R", "2L", "3R", "3L", "4", "X"]

  predicate ContainsAny(s: string, words: seq<string>)
  {
    exists i :: 0 <= i < |words| && Contains(s, words[i])
  }

  /** `^.*(2R|2L|3R|3L|4|X).*$`: a chromosome name anywhere on one line. */
  predicate IsChromosomeField(s: string)
  {
    var t := DropFinalNewline(s);
    '\n' !in t && ContainsAny(t, CHROMOSOMES)
  }

  /** `^[0-9]+$`. */
  predicate IsPositionField(s: string)
  {
    IsDigits(DropFinalNewline(s))
  }

  /**
   * `^(2R|2L|3R|3L|4|X)_\d+_(SNP|MNP|INS|DEL)$`.  No alternative and no
   * digit contains '_', so a text matches exactly when its '_'-separated
   * fields are a chromosome name, a run of digits and a kind tag.
   */
  predicate IsIdentifier(s: string)
  {
    var parts := Split(DropFinalNewline(s), '_');
    |parts| == 3 && parts[0] in CHROMOSOMES && IsDigits(parts[1]) && parts[2] in DGRP_LIST_MUTATION
  }

  /** The components of an identifier. */
  datatype VariantId = VariantId(chromosome: string, position: nat, kind: MutationKind)

  /** The catalogue's identifier of a variant, e.g. `2L_12345_SNP`. */
  function MakeIdentifier(v: VariantId): string
  {
    v.chromosome + "_" + NatToString(v.position) + "_" + Tag(v.kind)
  }

  /** Reads an identifier back into its components. */
  function ParseIdentifier(s: string): (r: Option<VariantId>)
    ensures r.Some? <==> IsIdentifier(s)
  {
    var parts := Split(DropFinalNewline(s), '_');
    if |parts| == 3 && parts[0] in CHROMOSOMES && IsDigits(parts[1]) && parts[2] in DGRP_LIST_MUTATION
    then Some(VariantId(parts[0], DigitsValue(parts[1]), KindOfTag(parts[2]).value))
    else None
  }

  /** Every identifier built from a chromosome name is accepted and reads back to its parts. */
  lemma IdentifierRoundTrip(v: VariantId)
    requires v.chromosome in CHROMOSOMES
    ensures IsIdentifier(MakeIdentifier(v))
    ensures ParseIdentifier(MakeIdentifier(v)) == Some(v)
  {
    var s := MakeIdentifier(v);
    var parts := [v.chromosome, NatToString(v.position), Tag(v.kind)];
    assert Join(parts[1..], "_") == parts[1] + "_" + Join(parts[2..], "_");
    assert s == Join(parts, "_");
    assert Free(parts, '_') by {
      assert '_' !in v.chromosome;
      assert forall i :: 0 <= i < |NatToString(v.position)| ==> IsDigit(NatToString(v.position)[i]);
    }
    assert '\n' !in s;
    SplitJoin(parts, '_');
    NatToStringValue(v.position);
    TagRoundTrip(v.kind);
  }

  /** A chromosome name anywhere on a single line is accepted: the pattern is not anchored to the name. */
  lemma {:induction false} ChromosomeUnanchored(before: string, c: string, after: string)
    requires c in CHROMOSOMES && '\n' !in before && '\n' !in after
    ensures IsChromosomeField(before + c + after)
  {
    var s := before + c + after;
    assert DropFinalNewline(s) == s by {
      assert s[|s| - 1] != '\n' by {
        if |after| > 0 { assert s[|s| - 1] == after[|after| - 1]; }
        else { assert s[|s| - 1] == c[|c| - 1]; }
      }
    }
    ContainsInside(before, c, after);
    var i :| 0 <= i < |CHROMOSOMES| && CHROMOSOMES[i] == c;
  }

  lemma {:induction false} ContainsInside(before: string, c: string, after: string)
    ensures Contains(before + c + after, c)
  {
    if |before| > 0 {
      ContainsInside(before[1..], c, after);
      assert (before + c + after)[1..] == before[1..] + c + after;
    } else {
      assert (before + c + after)[..|c|] == c;
    }
  }

  // ------------------------------------------------------------------ alleles

  predicate IsBase(c: char)
  {
    c == 'A' || c == 'T' || c == 'G' || c == 'C'
  }

  /** `^[ATGC]{min,}$` (the `(A|T|G|C){1}` forms are the case of length exactly one). */
  predicate Bases(s: string, min: nat)
  {
    var t := DropFinalNewline(s);
    |t| >= min && forall i :: 0 <= i < |t| ==> IsBase(t[i])
  }

  /** The allele patterns a catalogue entry of each kind must match. */
  predicate AllelesMatch(k: MutationKind, reference: string, alternative: string)
  {
    match k
    case SNP => Bases(reference, 1) && |DropFinalNewline(reference)| == 1
             && Bases(alternative, 1) && |DropFinalNewline(alternative)| == 1
    case INS => Bases(reference, 1) && Bases(alternative, 2)
    case DEL => Bases(reference, 2) && Bases(alternative, 1)
    case MNP => Bases(reference, 2) && Bases(alternative, 2)
  }

  /** Alleles that fit the SNP patterns fit no other kind's. */
  lemma SnpAllelesExclusive(k: MutationKind, reference: string, alternative: string)
    requires AllelesMatch(SNP, reference, alternative) && k != SNP
    ensures !AllelesMatch(k, reference, alternative)
  {
  }

  /** Two-base alleles fit INS, DEL and MNP at once: the patterns alone do not decide those kinds. */
  lemma MultiBaseAllelesAmbiguous()
    ensures AllelesMatch(INS, "AT", "GC") && AllelesMatch(DEL, "AT", "GC") && AllelesMatch(MNP, "AT", "GC")
  {
  }

  // ---------------------------------------------------------------- genotypes

  /** What a genotype call does with the line that carries it. */
  datatype LineAssociation = AddRefLine | AddAltLine | AddUnknownLine

  const DGRP_GENOTYPE_LIST: seq<string> := ["0/0", "1/1", "./."]

  const MUTATION_GENOTYPE_ASSOCIATION: map<string, LineAssociation> :=
    map["0/0" := AddRefLine, "1/1" := AddAltLine, "./." := AddUnknownLine]

  /** The map has exactly the three genotype strings as keys, each with its own association. */
  lemma GenotypeAssociationShape()
    ensures MUTATION_GENOTYPE_ASSOCIATION.Keys == set g | g in DGRP_GENOTYPE_LIST
    ensures |MUTATION_GENOTYPE_ASSOCIATION.Keys| == 3
    ensures MUTATION_GENOTYPE_ASSOCIATION["0/0"] == AddRefLine
    ensures MUTATION_GENOTYPE_ASSOCIATION["1/1"] == AddAltLine
    ensures MUTATION_GENOTYPE_ASSOCIATION["./."] == AddUnknownLine
  {
    assert MUTATION_GENOTYPE_ASSOCIATION.Keys == {"0/0", "1/1", "./."};
  }

  // ------------------------------------------------------------------ effects

  const MUTATION_AFFECTING_PROTEIN: seq<string> :=
    ["NON_SYNONYMOUS_START", "EXON_DELETED", "NON_SYNONYMOUS_CODING", "START_GAINED", "STOP_GAINED",
     "START_LOST", "STOP_LOST", "CODON_DELETION", "FRAME_SHIFT", "CODON_INSERTION",
     "CODON_CHANGE_PLUS_CODON_INSERTION", "CODON_CHANGE_PLUS_CODON_DELETION"]
  const MUTATION_INSIDE_GENE: seq<string> :=
    ["CODON_CHANGE", "EXON", "SYNONYMOUS_STOP", "UTR_3_PRIME", "INTRON", "SYNONYMOUS_CODING", "UTR_5_PRIME"]
  const MUTATION_OUTSIDE_GENE: seq<string> := ["DOWNSTREAM", "UPSTREAM"]
  const MUTATION_UNDEFINED: seq<string> := ["UNDEFINED_EFFECT_TYPE"]
  const MUTATION_WANTED: seq<string> :=
    MUTATION_AFFECTING_PROTEIN + MUTATION_INSIDE_GENE + MUTATION_OUTSIDE_GENE + MUTATION_UNDEFINED
  const MUTATION_NOT_WANTED: seq<string> := []

  /** The category an effect type falls in, in the order the wanted list concatenates them. */
  datatype EffectCategory = AffectingProtein | InsideGene | OutsideGene | Undefined

  function CategoryOf(effect: string): (r: Option<EffectCategory>)
    ensures r.Some? <==> effect in MUTATION_WANTED
    ensures r == Some(AffectingProtein) <==> effect in MUTATION_AFFECTING_PROTEIN
    ensures r == Some(InsideGene) <==> effect in MUTATION_INSIDE_GENE
    ensures r == Some(OutsideGene) <==> effect in MUTATION_OUTSIDE_GENE
    ensures r == Some(Undefined) <==> effect in MUTATION_UNDEFINED
  {
    if effect in MUTATION_AFFECTING_PROTEIN then Some(AffectingProtein)
    else if effect in MUTATION_INSIDE_GENE then Some(InsideGene)
    else if effect in MUTATION_OUTSIDE_GENE then Some(OutsideGene)
    else if effect in MUTATION_UNDEFINED then Some(Undefined)
    else None
  }

  /** The wanted effects are the 22 distinct effects of the four categories; none is unwanted. */
  lemma EffectListsShape()
    ensures |MUTATION_WANTED| == 22
    ensures forall i, j :: 0 <= i < j < |MUTATION_WANTED| ==> MUTATION_WANTED[i] != MUTATION_WANTED[j]
    ensures MUTATION_NOT_WANTED == []
  {
  }
}
