// The alpha-thresholded result of an analysis: an analysed phenotype owns
// its analysed genes, and each gene owns the analysed mutations reported
// under it.  Both `add_*` operations raise `AnalyzedPhenotypeException`,
// a name neither file imports, so their error path ends in a NameError.

module Analyzed {
  import opened Runtime
  import opened Schema

  /** The exception the error paths name, and that neither file defines or imports. */
  const UNDEFINED_EXCEPTION: string := "AnalyzedPhenotypeException"

  class AnalyzedGene {
    var analyzedPhenotypeName: string
    var age: string               // declared as a String column
    var methodName: string
    var alpha: real
    var category: string
    var flybaseId: string
    var symbol: string
    var bestRank: int
    var lineNumber: int
    var significativeMutation: int
    var gwas: bool
    var rnai: bool
    var analyzedMutationList: seq<AnalyzedMutation>

    constructor (analyzedPhenotypeName: string, age: string, methodName: string, alpha: real,
                 category: string, flybaseId: string, symbol: string)
      ensures this.analyzedPhenotypeName == analyzedPhenotypeName && this.age == age
      ensures this.methodName == methodName && this.alpha == alpha && this.category == category
      ensures this.flybaseId == flybaseId && this.symbol == symbol
      ensures analyzedMutationList == []
    {
      this.analyzedPhenotypeName := analyzedPhenotypeName;
      this.age := age;
      this.methodName := methodName;
      this.alpha := alpha;
      this.category := category;
      this.flybaseId := flybaseId;
      this.symbol := symbol;
      bestRank, lineNumber, significativeMutation := 0, 0, 0;
      gwas, rnai := false, false;
      analyzedMutationList := [];
    }

    /** `add_mutation`: appends an AnalyzedMutation; anything else fails with the list unchanged. */
    method AddMutation(arg: Arg<AnalyzedMutation>) returns (outcome: Outcome)
      modifies this`analyzedMutationList
      ensures arg.Instance? ==> outcome == Done && analyzedMutationList == old(analyzedMutationList) + [arg.obj]
      ensures !arg.Instance? ==>
                outcome == Failed(NameError(UNDEFINED_EXCEPTION)) && analyzedMutationList == old(analyzedMutationList)
    {
      if arg.Instance? {
        analyzedMutationList := analyzedMutationList + [arg.obj];
        outcome := Done;
      } else {
        outcome := Failed(NameError(UNDEFINED_EXCEPTION));
      }
    }
  }

  class AnalyzedPhenotype {
    var name: string
    var age: int
    var alpha: real
    var methodName: string
    var analyzedGeneList: seq<AnalyzedGene>

    constructor (name: string, age: int, alpha: real, methodName: string)
      ensures this.name == name && this.age == age && this.alpha == alpha && this.methodName == methodName
      ensures analyzedGeneList == []
    {
      this.name := name;
      this.age := age;
      this.alpha := alpha;
      this.methodName := methodName;
      analyzedGeneList := [];
    }

    /** `add_gene`: appends an AnalyzedGene; anything else fails with the list unchanged. */
    method AddGene(arg: Arg<AnalyzedGene>) returns (outcome: Outcome)
      modifies this`analyzedGeneList
      ensures arg.Instance? ==> outcome == Done && analyzedGeneList == old(analyzedGeneList) + [arg.obj]
      ensures !arg.Instance? ==>
                outcome == Failed(NameError(UNDEFINED_EXCEPTION)) && analyzedGeneList == old(analyzedGeneList)
    {
      if arg.Instance? {
        analyzedGeneList := analyzedGeneList + [arg.obj];
        outcome := Done;
      } else {
        outcome := Failed(NameError(UNDEFINED_EXCEPTION));
      }
    }
  }
}
