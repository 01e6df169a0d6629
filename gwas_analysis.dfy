// One run of the single-variant association analysis on one phenotype and
// age.  It owns the strain values it was given, the covariables, and the
// variants it reported as significant.

module GwasAnalysis {
  import opened Runtime
  import opened Schema

  class GWASAnalysis {
    var gwasId: int               // auto-incremented key
    var phenotypeName: string
    var age: int
    var correctionMode: string
    var transformationMode: string
    var genotype: string
    var covariable: string
    var alpha: real
    var phenotypeValuesList: seq<GWASPhenotypeValue>
    var covariableList: seq<GWASCovariableValue>
    var identifiedSnpList: seq<GWASIdentifiedSNP>

    constructor (gwasId: int, phenotypeName: string, age: int, alpha: real)
      ensures this.gwasId == gwasId && this.phenotypeName == phenotypeName
      ensures this.age == age && this.alpha == alpha
      ensures phenotypeValuesList == [] && covariableList == [] && identifiedSnpList == []
    {
      this.gwasId := gwasId;
      this.phenotypeName := phenotypeName;
      this.age := age;
      this.alpha := alpha;
      correctionMode, transformationMode, genotype, covariable := "", "", "", "";
      phenotypeValuesList, covariableList, identifiedSnpList := [], [], [];
    }

    /** `add_phenotype_value`: appends a GWASPhenotypeValue; anything else is ignored. */
    method AddPhenotypeValue(arg: Arg<GWASPhenotypeValue>)
      modifies this`phenotypeValuesList
      ensures phenotypeValuesList ==
                (if arg.Instance? then old(phenotypeValuesList) + [arg.obj] else old(phenotypeValuesList))
    {
      if arg.Instance? {
        phenotypeValuesList := phenotypeValuesList + [arg.obj];
      }
    }

    /** `add_covariable`: appends a GWASCovariableValue; anything else is ignored. */
    method AddCovariable(arg: Arg<GWASCovariableValue>)
      modifies this`covariableList
      ensures covariableList == (if arg.Instance? then old(covariableList) + [arg.obj] else old(covariableList))
    {
      if arg.Instance? {
        covariableList := covariableList + [arg.obj];
      }
    }

    /** `add_identified_snp`: appends a GWASIdentifiedSNP; anything else is ignored. */
    method AddIdentifiedSnp(arg: Arg<GWASIdentifiedSNP>)
      modifies this`identifiedSnpList
      ensures identifiedSnpList ==
                (if arg.Instance? then old(identifiedSnpList) + [arg.obj] else old(identifiedSnpList))
    {
      if arg.Instance? {
        identifiedSnpList := identifiedSnpList + [arg.obj];
      }
    }

    /** `__eq__` reads `self.id`; the key column is `gwas_id`, so every comparison raises. */
    function Equals(other: Arg<GWASAnalysis>): (r: Result<bool>)
      ensures r == Err(AttributeError("id"))
    {
      Err(AttributeError("id"))
    }

    /** `__str__` reads the same missing `self.id`. */
    function ToString(): (r: Result<string>)
      ensures r == Err(AttributeError("id"))
    {
      Err(AttributeError("id"))
    }
  }
}
