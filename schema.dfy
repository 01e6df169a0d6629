// Mapped tables that carry no behaviour of their own: plain records, used as
// elements of the owning objects' lists and as rows of the catalogue.

module Schema {

  /** A DGRP line (`line`, key `line_id`). */
  datatype Line = Line(lineId: string)

  /** A row of `mutation_in_line`: one carrier line of one variant; both columns form the key. */
  datatype AssociationMutationLine = AssociationMutationLine(mutationId: string, lineId: string)

  /** A row of `mutation_effect` (key `flybase_id`, `mutation_id`): the effect of a variant on a gene. */
  datatype MutationEffect = MutationEffect(
    flybaseId: string, symbol: string, mutationId: string, position: string, effectType: string)

  /** A row of `analyzed_mutation`: a variant reported under an analysed gene. */
  datatype AnalyzedMutation = AnalyzedMutation(
    analyzedPhenotypeName: string, analyzedGeneFbid: string, age: int, methodName: string,
    category: string, alpha: real, name: string, rank: int, weight: real, ratio: real, numberLine: int)

  /** A row of `db_parameter` (key `parameterName`). */
  datatype DBParameter = DBParameter(parameterName: string, parameterType: string, parameterValue: string)

  /** A row of `gwas_phenotype_value` (key: analysis id, strain number). */
  datatype GWASPhenotypeValue = GWASPhenotypeValue(
    associatedGwasanalysisId: int, strainNumber: string, phenotypeValue: real)

  /** A row of `gwas_covariable_value` (key: analysis id, strain number, covariable name). */
  datatype GWASCovariableValue = GWASCovariableValue(
    associatedGwasanalysisId: int, strainNumber: string, covariableName: string, covariableValue: string)

  /** A row of `gwas_identified_snp` (key: analysis id, SNP id). */
  datatype GWASIdentifiedSNP = GWASIdentifiedSNP(
    associatedGwasanalysisId: int, snpId: string, chromosome: string, position: int,
    pvalue: real, snpWeight: real, snpWeightSe: real, snpFractVarExpl: real, mixing: real, nullh2: real)
}
