// The relational shape of the database: each mapped table as the set (or
// the map) of its primary keys, the foreign keys between them, and the
// deletions the mapped relationships cascade.
//
// A table whose rows carry a foreign key outside their primary key is a map
// from the key to that column.  Only key columns are kept: the other
// columns play no part in referential integrity.

module Store {
  import opened Runtime
  import opened Schema

  /** The key of `processed_phenotype`: (name, method, age). */
  datatype PhenotypeKey = PhenotypeKey(name: string, methodName: string, age: int)

  /**
   * The key of a row owned by a processed phenotype: `processed_strain`
   * (the id is the strain number) or `processed_mutation` (the id is the
   * variant's mutation id).
   */
  datatype Owned = Owned(owner: PhenotypeKey, id: string)

  /** The key of `processed_phenotype_data`: (phenotype name, age, individual name). */
  datatype DataKey = DataKey(phenotypeName: string, age: int, individualName: string)

  /** The key of `analyzed_phenotype`: the processed phenotype's key and alpha. */
  datatype AnalysisKey = AnalysisKey(phenotype: PhenotypeKey, alpha: real)

  /** The key of `analyzed_gene`: the analysis, the category and the FlyBase id. */
  datatype GeneKey = GeneKey(analysis: AnalysisKey, category: string, flybaseId: string)

  /** The key of `analyzed_mutation`: the analysis, the category and the variant; the gene id is outside it. */
  datatype AnalyzedMutationKey = AnalyzedMutationKey(analysis: AnalysisKey, category: string, name: string)

  datatype Db = Db(
    strains: set<string>,                              // strain.number
    individuals: map<string, string>,                  // name -> strain_number
    phenotypeData: map<int, string>,                   // id -> individual_name
    processedPhenotypes: set<PhenotypeKey>,
    processedStrains: set<Owned>,
    processedMutations: set<Owned>,
    processedData: map<DataKey, Option<int>>,          // key -> phenotype_data_id
    analyzedPhenotypes: set<AnalysisKey>,
    analyzedGenes: set<GeneKey>,
    analyzedMutations: map<AnalyzedMutationKey, string>, // key -> analyzed_gene_fbid
    mutations: set<string>,                            // mutation.mutation_id
    lines: set<string>,                                // line.line_id
    carriers: set<AssociationMutationLine>,            // mutation_in_line
    gwasAnalyses: set<int>,                            // gwas_analysis.gwas_id
    gwasPhenotypeValues: set<GWASPhenotypeValue>,
    gwasCovariables: set<GWASCovariableValue>,
    gwasSnps: set<GWASIdentifiedSNP>)

  /** Some processed phenotype has this name and age: the target of the data rows' foreign key. */
  predicate HasPhenotype(db: Db, name: string, age: int)
  {
    exists p :: p in db.processedPhenotypes && p.name == name && p.age == age
  }

  /** Every foreign key names an existing row. */
  predicate Integrity(db: Db)
  {
    (forall n :: n in db.individuals ==> db.individuals[n] in db.strains)
    && (forall i :: i in db.phenotypeData ==> db.phenotypeData[i] in db.individuals)
    && (forall s :: s in db.processedStrains ==> s.owner in db.processedPhenotypes && s.id in db.strains)
    && (forall m :: m in db.processedMutations ==> m.owner in db.processedPhenotypes && m.id in db.mutations)
    && (forall d :: d in db.processedData ==> HasPhenotype(db, d.phenotypeName, d.age))
    && (forall d :: d in db.processedData && db.processedData[d].Some? ==>
          db.processedData[d].value in db.phenotypeData)
    && (forall a :: a in db.analyzedPhenotypes ==> a.phenotype in db.processedPhenotypes)
    && (forall g :: g in db.analyzedGenes ==> g.analysis in db.analyzedPhenotypes)
    && (forall m :: m in db.analyzedMutations ==>
          GeneKey(m.analysis, m.category, db.analyzedMutations[m]) in db.analyzedGenes && m.name in db.mutations)
    && (forall c :: c in db.carriers ==> c.mutationId in db.mutations && c.lineId in db.lines)
    && (forall v :: v in db.gwasPhenotypeValues ==> v.associatedGwasanalysisId in db.gwasAnalyses)
    && (forall v :: v in db.gwasCovariables ==> v.associatedGwasanalysisId in db.gwasAnalyses)
    && (forall v :: v in db.gwasSnps ==> v.associatedGwasanalysisId in db.gwasAnalyses)
  }

  // ------------------------------------------------------------ cascades

  /** The processed data left once the phenotype data `gone` is deleted: their references become null. */
  function Unlink(data: map<DataKey, Option<int>>, gone: set<int>): (r: map<DataKey, Option<int>>)
    ensures r.Keys == data.Keys
    ensures forall d :: d in r ==> r[d] == (if data[d].Some? && data[d].value in gone then None else data[d])
  {
    map d | d in data :: if data[d].Some? && data[d].value in gone then None else data[d]
  }

  /** The analyzed mutations whose gene is not among `genes`. */
  function KeepMutationsOutside(ms: map<AnalyzedMutationKey, string>, genes: set<GeneKey>)
    : (r: map<AnalyzedMutationKey, string>)
    ensures forall m :: m in r <==> m in ms && GeneKey(m.analysis, m.category, ms[m]) !in genes
    ensures forall m :: m in r ==> r[m] == ms[m]
  {
    map m | m in ms && GeneKey(m.analysis, m.category, ms[m]) !in genes :: ms[m]
  }

  /** Deleting an analyzed gene deletes its analyzed mutations. */
  function DeleteAnalyzedGene(db: Db, g: GeneKey): (r: Db)
    ensures r.analyzedGenes == db.analyzedGenes - {g}
    ensures forall m :: m in r.analyzedMutations <==>
              m in db.analyzedMutations && GeneKey(m.analysis, m.category, db.analyzedMutations[m]) != g
    ensures r == db.(analyzedGenes := r.analyzedGenes, analyzedMutations := r.analyzedMutations)
  {
    db.(analyzedGenes := db.analyzedGenes - {g},
        analyzedMutations := KeepMutationsOutside(db.analyzedMutations, {g}))
  }

  /** The genes of the analyses `analyses`. */
  function GenesOf(genes: set<GeneKey>, analyses: set<AnalysisKey>): set<GeneKey>
  {
    set g | g in genes && g.analysis in analyses
  }

  /** Deleting an analyzed phenotype deletes its genes, and theirs mutations with them. */
  function DeleteAnalyzedPhenotype(db: Db, a: AnalysisKey): (r: Db)
    ensures r.analyzedPhenotypes == db.analyzedPhenotypes - {a}
    ensures forall g :: g in r.analyzedGenes <==> g in db.analyzedGenes && g.analysis != a
    ensures forall m :: m in r.analyzedMutations <==>
              m in db.analyzedMutations &&
              !(m.analysis == a && GeneKey(m.analysis, m.category, db.analyzedMutations[m]) in db.analyzedGenes)
    ensures forall m :: m in r.analyzedMutations ==> r.analyzedMutations[m] == db.analyzedMutations[m]
    ensures r == db.(analyzedPhenotypes := r.analyzedPhenotypes, analyzedGenes := r.analyzedGenes,
                     analyzedMutations := r.analyzedMutations)
  {
    var gone := GenesOf(db.analyzedGenes, {a});
    db.(analyzedPhenotypes := db.analyzedPhenotypes - {a},
        analyzedGenes := db.analyzedGenes - gone,
        analyzedMutations := KeepMutationsOutside(db.analyzedMutations, gone))
  }

  /**
   * Deleting a processed phenotype deletes its processed strains and
   * processed mutations, its analyzed phenotypes with their genes and
   * analyzed mutations, and every processed data row that joins it, that
   * is, every row with its name and age, whatever the method.
   */
  function DeleteProcessedPhenotype(db: Db, k: PhenotypeKey): (r: Db)
    ensures r.processedPhenotypes == db.processedPhenotypes - {k}
    ensures forall s :: s in r.processedStrains <==> s in db.processedStrains && s.owner != k
    ensures forall m :: m in r.processedMutations <==> m in db.processedMutations && m.owner != k
    ensures forall d :: d in r.processedData <==>
              d in db.processedData && !(d.phenotypeName == k.name && d.age == k.age)
    ensures forall a :: a in r.analyzedPhenotypes <==> a in db.analyzedPhenotypes && a.phenotype != k
    ensures forall g :: g in r.analyzedGenes <==>
              g in db.analyzedGenes && !(g.analysis in db.analyzedPhenotypes && g.analysis.phenotype == k)
    ensures forall m :: m in r.analyzedMutations <==>
              m in db.analyzedMutations &&
              !(m.analysis in db.analyzedPhenotypes && m.analysis.phenotype == k &&
                GeneKey(m.analysis, m.category, db.analyzedMutations[m]) in db.analyzedGenes)
    ensures forall m :: m in r.analyzedMutations ==> r.analyzedMutations[m] == db.analyzedMutations[m]
    ensures r == db.(processedPhenotypes := r.processedPhenotypes, processedStrains := r.processedStrains,
                     processedMutations := r.processedMutations, processedData := r.processedData,
                     analyzedPhenotypes := r.analyzedPhenotypes, analyzedGenes := r.analyzedGenes,
                     analyzedMutations := r.analyzedMutations)
  {
    var analyses := set a | a in db.analyzedPhenotypes && a.phenotype == k;
    var genes := GenesOf(db.analyzedGenes, analyses);
    db.(processedPhenotypes := db.processedPhenotypes - {k},
        processedStrains := (set s | s in db.processedStrains && s.owner != k),
        processedMutations := (set m | m in db.processedMutations && m.owner != k),
        processedData := (map d | d in db.processedData && !(d.phenotypeName == k.name && d.age == k.age)
                            :: db.processedData[d]),
        analyzedPhenotypes := db.analyzedPhenotypes - analyses,
        analyzedGenes := db.analyzedGenes - genes,
        analyzedMutations := KeepMutationsOutside(db.analyzedMutations, genes))
  }

  /** The ids of the phenotype data of the individuals `names`. */
  function DataOf(data: map<int, string>, names: set<string>): set<int>
  {
    set i | i in data && data[i] in names
  }

  /** The individuals of strain `number`. */
  function MembersOf(db: Db, number: string): set<string>
  {
    set n | n in db.individuals && db.individuals[n] == number
  }

  /** A processed data reference names a phenotype data row measured on one of the individuals `names`. */
  predicate MeasuredOn(db: Db, ref: Option<int>, names: set<string>)
  {
    ref.Some? && ref.value in db.phenotypeData && db.phenotypeData[ref.value] in names
  }

  /** Deleting an individual deletes its phenotype data; the processed data that pointed there become unlinked. */
  function DeleteIndividual(db: Db, name: string): (r: Db)
    ensures forall n :: n in r.individuals <==> n in db.individuals && n != name
    ensures forall n :: n in r.individuals ==> r.individuals[n] == db.individuals[n]
    ensures forall i :: i in r.phenotypeData <==> i in db.phenotypeData && db.phenotypeData[i] != name
    ensures forall i :: i in r.phenotypeData ==> r.phenotypeData[i] == db.phenotypeData[i]
    ensures r.processedData.Keys == db.processedData.Keys
    ensures forall d :: d in r.processedData ==>
              r.processedData[d] == (if MeasuredOn(db, db.processedData[d], {name}) then None else db.processedData[d])
    ensures r == db.(individuals := r.individuals, phenotypeData := r.phenotypeData,
                     processedData := r.processedData)
  {
    var gone := DataOf(db.phenotypeData, {name});
    db.(individuals := (map n | n in db.individuals && n != name :: db.individuals[n]),
        phenotypeData := (map i | i in db.phenotypeData && i !in gone :: db.phenotypeData[i]),
        processedData := Unlink(db.processedData, gone))
  }

  /**
   * Deleting a strain deletes its individuals and their data.  The
   * processed strains that name it have no cascade: the mapper would blank
   * their `strain_number`, which is part of their key, and refuses.
   */
  function DeleteStrain(db: Db, number: string): (r: Result<Db>)
    ensures r.Err? <==> exists s :: s in db.processedStrains && s.id == number
    ensures r.Err? ==> r.error == Raised("AssertionError")
    ensures r.Ok? ==> r.value.strains == db.strains - {number}
    ensures r.Ok? ==> forall n :: n in r.value.individuals <==> n in db.individuals && db.individuals[n] != number
    ensures r.Ok? ==> forall n :: n in r.value.individuals ==> r.value.individuals[n] == db.individuals[n]
    ensures r.Ok? ==> forall i :: i in r.value.phenotypeData <==>
              i in db.phenotypeData && !(db.phenotypeData[i] in db.individuals && db.individuals[db.phenotypeData[i]] == number)
    ensures r.Ok? ==> forall i :: i in r.value.phenotypeData ==> r.value.phenotypeData[i] == db.phenotypeData[i]
    ensures r.Ok? ==> r.value.processedData.Keys == db.processedData.Keys
    ensures r.Ok? ==> forall d :: d in r.value.processedData ==>
              r.value.processedData[d] ==
              (if MeasuredOn(db, db.processedData[d], MembersOf(db, number)) then None else db.processedData[d])
    ensures r.Ok? ==> r.value == db.(strains := r.value.strains, individuals := r.value.individuals,
                                     phenotypeData := r.value.phenotypeData, processedData := r.value.processedData)
  {
    if exists s :: s in db.processedStrains && s.id == number then Err(Raised("AssertionError"))
    else
      var members := MembersOf(db, number);
      var gone := DataOf(db.phenotypeData, members);
      Ok(db.(strains := db.strains - {number},
             individuals := (map n | n in db.individuals && n !in members :: db.individuals[n]),
             phenotypeData := (map i | i in db.phenotypeData && i !in gone :: db.phenotypeData[i]),
             processedData := Unlink(db.processedData, gone)))
  }

  /** Deleting an analysis deletes the strain values, covariables and variants recorded under it. */
  function DeleteGwasAnalysis(db: Db, id: int): (r: Db)
    ensures r.gwasAnalyses == db.gwasAnalyses - {id}
    ensures forall v :: v in r.gwasPhenotypeValues <==> v in db.gwasPhenotypeValues && v.associatedGwasanalysisId != id
    ensures forall v :: v in r.gwasCovariables <==> v in db.gwasCovariables && v.associatedGwasanalysisId != id
    ensures forall v :: v in r.gwasSnps <==> v in db.gwasSnps && v.associatedGwasanalysisId != id
    ensures r == db.(gwasAnalyses := r.gwasAnalyses, gwasPhenotypeValues := r.gwasPhenotypeValues,
                     gwasCovariables := r.gwasCovariables, gwasSnps := r.gwasSnps)
  {
    db.(gwasAnalyses := db.gwasAnalyses - {id},
        gwasPhenotypeValues := (set v | v in db.gwasPhenotypeValues && v.associatedGwasanalysisId != id),
        gwasCovariables := (set v | v in db.gwasCovariables && v.associatedGwasanalysisId != id),
        gwasSnps := (set v | v in db.gwasSnps && v.associatedGwasanalysisId != id))
  }

  // ---------------------------------------------------- integrity kept

  lemma DeleteAnalyzedGeneKeepsIntegrity(db: Db, g: GeneKey)
    requires Integrity(db)
    ensures Integrity(DeleteAnalyzedGene(db, g))
  {
  }

  lemma DeleteAnalyzedPhenotypeKeepsIntegrity(db: Db, a: AnalysisKey)
    requires Integrity(db)
    ensures Integrity(DeleteAnalyzedPhenotype(db, a))
  {
    var r := DeleteAnalyzedPhenotype(db, a);
    forall m | m in r.analyzedMutations
      ensures GeneKey(m.analysis, m.category, r.analyzedMutations[m]) in r.analyzedGenes
    {
      var gk := GeneKey(m.analysis, m.category, db.analyzedMutations[m]);
      assert gk !in GenesOf(db.analyzedGenes, {a});
    }
  }

  lemma DeleteProcessedPhenotypeKeepsIntegrity(db: Db, k: PhenotypeKey)
    requires Integrity(db)
    ensures Integrity(DeleteProcessedPhenotype(db, k))
  {
    var r := DeleteProcessedPhenotype(db, k);
    forall d | d in r.processedData ensures HasPhenotype(r, d.phenotypeName, d.age) {
      var p :| p in db.processedPhenotypes && p.name == d.phenotypeName && p.age == d.age;
      assert p != k;
      assert p in r.processedPhenotypes;
    }
    forall g | g in r.analyzedGenes ensures g.analysis in r.analyzedPhenotypes {
      assert g.analysis in db.analyzedPhenotypes;
    }
    forall m | m in r.analyzedMutations
      ensures GeneKey(m.analysis, m.category, r.analyzedMutations[m]) in r.analyzedGenes
    {
      var gk := GeneKey(m.analysis, m.category, db.analyzedMutations[m]);
      assert gk in db.analyzedGenes;
      assert gk.analysis.phenotype != k;
    }
  }

  lemma DeleteIndividualKeepsIntegrity(db: Db, name: string)
    requires Integrity(db)
    ensures Integrity(DeleteIndividual(db, name))
  {
    var r := DeleteIndividual(db, name);
    var gone := DataOf(db.phenotypeData, {name});
    forall i | i in r.phenotypeData ensures r.phenotypeData[i] in r.individuals {
      assert r.phenotypeData[i] == db.phenotypeData[i] != name;
    }
    forall d | d in r.processedData && r.processedData[d].Some?
      ensures r.processedData[d].value in r.phenotypeData
    {
      assert db.processedData[d].Some? && db.processedData[d].value !in gone;
    }
    forall d | d in r.processedData ensures HasPhenotype(r, d.phenotypeName, d.age) {
      assert HasPhenotype(db, d.phenotypeName, d.age);
    }
  }

  lemma DeleteStrainKeepsIntegrity(db: Db, number: string)
    requires Integrity(db) && DeleteStrain(db, number).Ok?
    ensures Integrity(DeleteStrain(db, number).value)
  {
    var r := DeleteStrain(db, number).value;
    forall s | s in r.processedStrains ensures s.id in r.strains {
      assert s.id != number;
    }
    forall i | i in r.phenotypeData ensures r.phenotypeData[i] in r.individuals {
      var n := db.phenotypeData[i];
      assert db.individuals[n] != number;
    }
    forall d | d in r.processedData ensures HasPhenotype(r, d.phenotypeName, d.age) {
      assert HasPhenotype(db, d.phenotypeName, d.age);
    }
  }

  lemma DeleteGwasAnalysisKeepsIntegrity(db: Db, id: int)
    requires Integrity(db)
    ensures Integrity(DeleteGwasAnalysis(db, id))
  {
  }

  /**
   * Two processed phenotypes that differ only in their method share their
   * processed data: deleting one takes the data of the other with it.
   */
  lemma SharedDataDeletedWithEitherMethod(db: Db, name: string, age: int, individual: string)
    requires PhenotypeKey(name, "MEAN", age) in db.processedPhenotypes
    requires PhenotypeKey(name, "MEDIAN", age) in db.processedPhenotypes
    requires DataKey(name, age, individual) in db.processedData
    ensures var r := DeleteProcessedPhenotype(db, PhenotypeKey(name, "MEAN", age));
            PhenotypeKey(name, "MEDIAN", age) in r.processedPhenotypes && DataKey(name, age, individual) !in r.processedData
  {
  }
}
