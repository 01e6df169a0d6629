# A verified model of the SingleAgeStudy DGRP association pipeline

SingleAgeStudy is a pipeline for *Drosophila* Genetic Reference Panel (DGRP) studies. It scores
variants by how their carrier strains sit in the tails of a phenotype. It keeps an object model
of strains, individuals, measurements and their processed and analysed forms. It also annotates
the output of association tools (FaST-LMM single-variant scans and FastEpistasis pair scans)
with the gene effects recorded in a variant catalogue.

This project models the core of that pipeline in Dafny and proves properties of the model.

- `Runtime`: Python values, exceptions, `isinstance`-guarded arguments, and `Result`/`Option`.
- `Text`: splitting, joining, stripping and upper-casing strings.
- `Constants`: the catalogue grammars. The identifier and per-kind allele regexes become
  predicates, with Python's `$` also accepting one final newline. The genotype-string mapping and
  the mutation-kind tags are constants with lemmas.
- `Schema`: the behaviour-free mapped records (Line, AssociationMutationLine, MutationEffect,
  AnalyzedMutation, DBParameter, the GWAS value records, GWASIdentifiedSNP) as datatypes.
- `Mutations`: the `Mutation` class with its carrier-line and effect lists, the four kinds'
  `__str__` serialisers, and the polymorphic discriminator.
- `Processed` and `Sorting`: `ProcessedStrain`, `ProcessedMutation` and `ProcessedPhenotype` as
  classes. `compute_weight` is a loop proved against a signed rank-weighted sum. The guarded
  setters and the owned-children lists are modelled too. The two sorts are stable sorts by key,
  proved sorted, a permutation and stable. Keys that are None, numbers or strings are ordered as
  in Python 2; every other value ranks after the strings and ties with every other such value.
- `Population`, `Analyzed` and `GwasAnalysis`: Strain, Individual, PhenotypeData,
  ProcessedPhenotypeData, AnalyzedPhenotype, AnalyzedGene and GWASAnalysis as classes with their
  `add_*` methods.
- `Store`: the tables behind those classes, with the cascades their mappings declare. Deleting a
  parent removes or unlinks exactly its children, and referential integrity is preserved.
- `Annotation` and `GwasJoin`: the single-variant gene mapping script. It reads the families and
  result rows, counts carrier lines per id with a cache, and emits one gene-map line per effect
  and a missing report.
- `EpistasisJoin`: the pair gene mapping script. It uses a fixed eight-column header and keeps
  one effect per variant. A row is annotated only when both ids resolve.
- `SnpSets`: the SNP-set builder. Set A is a subset of the kept set, and the output file has a
  fixed layout.
- `Families`, `FastLmm` and `FastEpistasis`: the wrappers' family keys, the checks on column
  counts and family order, the phenotype tables and the p-value filter.
- `GwasUtil`: the `;`-separated analysis-definition parser.
- `FileUtils`: `find_extension`.
- `SqlManager`: `check_db_parameter`, the lazily opened session and the process-wide instance.
  `SqlAlchemyUtil` holds the two list projections.
- `GeneOntology`: the GO record and its printed line.

Database queries become lookups on an in-memory catalogue value. It holds the variants, the
(variant, line) carrier pairs and the effect rows. Files are given as their rows or lines, and
what the scripts write is returned as a sequence of lines.

Defects in the code are modelled as written, each with the error it raises or the output it
produces. Examples:
- names that are never defined raise NameError;
- the `fid[index]` order check;
- the stale `output_line` in the pair join;
- the `super(MeanException, …)` call in FileFormatException. It makes `find_extension` raise
  NameError instead of its own exception.

Two defects stop a whole operation before its body runs, and the model gives the intended body
instead. They are the second `@staticmethod` on `find_extension` and the missing
`ExecutionStrategy` base class of GwasUtil. Both are listed under "Left out".

Behaviour of the code worth noting:
- For a variant with no gene effect, the missing report gets each of the row's fields followed
  by a tab, then a newline
  (SingleAgeStudy/script/gwas_gene_mapping/gwas_result_gene_mapping.py:165-168).
- `compute_weight` on an empty strain list raises ZeroDivisionError
  (SingleAgeStudy/src/model/ProcessedMutation.py:194), and the model returns that error.
- Ranks, LOW/HIGH types, ratios and fdr are only set through setters. No code assigns them, so
  the model has no algorithm for them.

## Model

| member | source | states |
|---|---|---|
| Analyzed.AnalyzedGene.constructor | SingleAgeStudy/src/model/AnalyzedGene.py:16-29 | a new gene holds the given key columns and an empty mutation list |
| Analyzed.AnalyzedGene.AddMutation | SingleAgeStudy/src/model/AnalyzedGene.py:48-63 | an AnalyzedMutation is appended at the end of the list; any other argument fails with a NameError on the unimported exception class and leaves the list unchanged |
| Analyzed.AnalyzedPhenotype.constructor | SingleAgeStudy/src/model/AnalyzedPhenotype.py:35-40 | a new analysed phenotype holds its name, age, alpha and method and owns no gene |
| Analyzed.AnalyzedPhenotype.AddGene | SingleAgeStudy/src/model/AnalyzedPhenotype.py:55-63 | an AnalyzedGene is appended at the end of the list; any other argument fails with a NameError on the unimported exception class and leaves the list unchanged |
| Constants.KindOfTag | SingleAgeStudy/src/util/Constants.py:75-79 | a tag names a kind exactly when it is one of SNP, INS, DEL, MNP, and the kind found has that tag |
| Constants.TagRoundTrip | SingleAgeStudy/src/util/Constants.py:75-79 | every kind's tag is in the mutation list and reads back to that same kind |
| Constants.DropFinalNewline | SingleAgeStudy/src/util/Constants.py:88-90 | the text an anchored pattern body must match is the field itself or the field less one final newline (Python's `$` matches before it) |
| Constants.ParseIdentifier | SingleAgeStudy/src/util/Constants.py:90-91 | an identifier is read back exactly when it matches the identifier pattern |
| Constants.IdentifierRoundTrip | SingleAgeStudy/src/util/Constants.py:90 | every identifier built as chromosome `_` position `_` tag matches the pattern and reads back to the same chromosome, position and kind |
| Constants.ChromosomeUnanchored | SingleAgeStudy/src/util/Constants.py:88 | any single-line text that contains a chromosome name anywhere matches the chromosome pattern |
| Constants.SnpAllelesExclusive | SingleAgeStudy/src/util/Constants.py:103-118 | alleles that match the SNP patterns match no other kind's patterns |
| Constants.MultiBaseAllelesAmbiguous | SingleAgeStudy/src/util/Constants.py:107-118 | two-base alleles match the INS, DEL and MNP patterns at once, so the allele patterns alone do not tell those kinds apart |
| Constants.GenotypeAssociationShape | SingleAgeStudy/src/util/Constants.py:174-182 | the genotype map has exactly the three genotype strings as keys: `0/0` adds a reference line, `1/1` an alternative line, `./.` an unknown line |
| Constants.CategoryOf | SingleAgeStudy/src/util/Constants.py:184-189 | an effect type is wanted exactly when it belongs to one of the four category lists, and its category is the list that holds it |
| Constants.EffectListsShape | SingleAgeStudy/src/util/Constants.py:184-190 | the wanted list is 22 distinct effect types and the unwanted list is empty |
| Mutations.Identity | SingleAgeStudy/src/model/Mutation.py:56-57 | the polymorphic identity of each mapped class is a discriminator value that selects that same class back |
| Mutations.ClassFor | SingleAgeStudy/src/model/SNP.py:13 | "mutation" selects the base class, exactly the four DGRP tags select a subclass (the subclass whose tag it is), and no other value selects a class |
| Mutations.Mutation.constructor | SingleAgeStudy/src/model/Mutation.py:45-54 | a new variant has its id and discriminator, null position, chromosome and counts, and no carrier lines or effects yet |
| Mutations.Mutation.AddMutationEffect | SingleAgeStudy/src/model/Mutation.py:114-116 | the effect is appended at the end of the effect list, duplicates included |
| Mutations.Mutation.AddAltLine | SingleAgeStudy/src/model/Mutation.py:126-129 | a line is appended when not None and None changes nothing; a new carrier keeps the association keys distinct and a repeated one breaks them |
| Mutations.ToString | SingleAgeStudy/src/model/SNP.py:16-18 | the summary of a stored row exists exactly when its position and chromosome are set; a null in either makes the concatenation raise TypeError; otherwise it starts with the kind's tag and is the five-line summary, with a null count printed as None |
| Mutations.KindsDifferOnlyInTag | SingleAgeStudy/src/model/SNP.py:16-18 | the summaries of SNP, INS, DEL and MNP have the same length and differ only in their leading three-letter tag |
| Mutations.DescribeChain | SingleAgeStudy/src/model/SNP.py:17 | the summary is its five lines with a newline between each two |
| Mutations.DescribeJoin | SingleAgeStudy/src/model/SNP.py:17 | the summary is its five lines joined by newlines, without a trailing newline |
| Mutations.SummaryLinesFree | SingleAgeStudy/src/model/SNP.py:17 | no summary line holds a newline when the id, position and chromosome hold none |
| Mutations.DescribeLines | SingleAgeStudy/src/model/SNP.py:16-18 | when the id, position and chromosome hold no newline, splitting the summary at newlines gives back its five lines: tag and id, position, chromosome, reference count, alternative count |
| Processed.ProcessedStrain.constructor | SingleAgeStudy/src/model/ProcessedStrain.py:32-38 | a new strain summary holds its phenotype, method, age and strain number, with reference value, rank and type unset |
| Processed.ProcessedStrain.SetReferenceValue | SingleAgeStudy/src/model/ProcessedStrain.py:138-140 | the reference value becomes the argument and no other field changes |
| Processed.ProcessedStrain.SetType | SingleAgeStudy/src/model/ProcessedStrain.py:150-152 | the type becomes the argument and no other field changes |
| Processed.ProcessedStrain.AssignRank | SingleAgeStudy/src/model/ProcessedStrain.py:162-164 | the rank becomes the argument and no other field changes |
| Processed.ProcessedStrain.PhenotypeNameThroughOwner | SingleAgeStudy/src/model/ProcessedStrain.py:73-83 | the phenotype name looked up through `self.phenotype` always raises AttributeError, since the owner's back-reference is named `processed_phenotype` |
| Processed.Views | SingleAgeStudy/src/model/ProcessedMutation.py:187-191 | one view per carrier strain, in order, holding exactly that strain's type, reference value and rank |
| Processed.PrefixStep | SingleAgeStudy/src/model/ProcessedMutation.py:187-191 | one more strain adds its signed term to the running sum, and the sum raises exactly when it did before or this strain raises |
| Processed.ComputeWeight | SingleAgeStudy/src/model/ProcessedMutation.py:184-196 | the loop returns exactly `Weight` of the carrier strains: TypeError when a LOW or HIGH strain lacks a numeric reference value or rank, ZeroDivisionError for no strain, else the signed rank-weighted sum divided by the number of strains |
| Processed.TotalRemove | SingleAgeStudy/src/model/ProcessedMutation.py:187-191 | the sum over the strains is the sum without any one of them plus that strain's term |
| Processed.TotalPermutation | SingleAgeStudy/src/model/ProcessedMutation.py:187-191 | the signed sum does not depend on the order of the strains |
| Processed.WeightPermutation | SingleAgeStudy/src/model/ProcessedMutation.py:184-196 | permuting the carrier strains changes neither the weight nor whether computing it raises |
| Processed.NeutralTotal | SingleAgeStudy/src/model/ProcessedMutation.py:187-191 | strains that are neither LOW nor HIGH add nothing to the sum |
| Processed.NeutralWeight | SingleAgeStudy/src/model/ProcessedMutation.py:184-196 | a non-empty list of strains none of which is LOW or HIGH weighs 0.0 |
| Processed.NeutralCarrierDilutes | SingleAgeStudy/src/model/ProcessedMutation.py:184-196 | one more neutral carrier keeps the sum but divides it by one more strain |
| Processed.WorkedExamples | SingleAgeStudy/src/model/ProcessedMutation.py:184-196 | a HIGH strain of value 9.0 and rank 3 weighs 27.0; adding a LOW strain of value 1.0 and rank 1 gives (27 - 1) / 2 = 13.0 |
| Processed.ProcessedMutation.constructor | SingleAgeStudy/src/model/ProcessedMutation.py:44-52 | a new variant score holds its phenotype, method, age and variant id, with every score unset |
| Processed.ProcessedMutation.SetNumberLine | SingleAgeStudy/src/model/ProcessedMutation.py:67-69 | the line count becomes the argument and no other field changes |
| Processed.ProcessedMutation.SetRatio | SingleAgeStudy/src/model/ProcessedMutation.py:79-81 | the ratio becomes the argument and no other field changes |
| Processed.ProcessedMutation.SetWeight | SingleAgeStudy/src/model/ProcessedMutation.py:152-155 | a float is stored; any other argument leaves the weight as it was |
| Processed.ProcessedMutation.SetRank | SingleAgeStudy/src/model/ProcessedMutation.py:165-170 | the answer is True exactly for an int, which is then stored; anything else answers False and leaves the rank as it was |
| Processed.ProcessedPhenotypeData.constructor | SingleAgeStudy/src/model/ProcessedPhenotypeData.py:28-34 | a new normalised datum holds its phenotype, age and individual, with no centred value and no source measurement |
| Processed.ProcessedPhenotypeData.SetNormalizedCenteredValue | SingleAgeStudy/src/model/ProcessedPhenotypeData.py:107-123 | a float is stored and the text 'set_to_none' clears the value, both answering True; anything else answers False and changes nothing |
| Processed.ProcessedPhenotype.constructor | SingleAgeStudy/src/model/ProcessedPhenotype.py:39-45 | a new processed phenotype holds its name, age and method, with all four owned lists empty |
| Processed.ProcessedPhenotype.AddGene | SingleAgeStudy/src/model/ProcessedPhenotype.py:56-64 | no call succeeds: a non-AnalyzedGene raises ProcessedPhenotypeException, and an AnalyzedGene raises AttributeError on the undeclared `analyzed_gene_list` |
| Processed.ProcessedPhenotype.SortProcessedStrain | SingleAgeStudy/src/model/ProcessedPhenotype.py:73-76 | a permutation of the strains, ordered by reference value, with equal keys kept in list order, and the stored list untouched |
| Processed.ProcessedPhenotype.SortProcessedMutation | SingleAgeStudy/src/model/ProcessedPhenotype.py:86-92 | a permutation of the variant scores, ordered by weight, with equal keys kept in list order, and the stored list untouched |
| Processed.ProcessedPhenotype.AddMutation | SingleAgeStudy/src/model/ProcessedPhenotype.py:103-118 | a ProcessedMutation is appended; anything else raises ProcessedPhenotypeException and the list is unchanged |
| Processed.ProcessedPhenotype.AddProcessedData | SingleAgeStudy/src/model/ProcessedPhenotype.py:128-145 | a ProcessedPhenotypeData is appended; anything else raises ProcessedPhenotypeException and the list is unchanged |
| Processed.ProcessedPhenotype.AddProcessedStrain | SingleAgeStudy/src/model/ProcessedPhenotype.py:156-175 | a ProcessedStrain is appended; anything else raises ProcessedPhenotypeException and the list is unchanged |
| Processed.ProcessedPhenotype.AddAnalyzedPhenotype | SingleAgeStudy/src/model/ProcessedPhenotype.py:185-188 | any argument but None is appended; None changes nothing |
| Sorting.StrLeTotal | SingleAgeStudy/src/model/ProcessedPhenotype.py:74 | any two string keys are ordered one way or the other |
| Sorting.StrLeTransitive | SingleAgeStudy/src/model/ProcessedPhenotype.py:74 | the byte-wise order of string keys is transitive |
| Sorting.KeyLeTotal | SingleAgeStudy/src/model/ProcessedPhenotype.py:74 | any two keys are comparable: None first, then numbers by value, then strings byte-wise as in Python 2, then every other value, all tied |
| Sorting.KeyLeTransitive | SingleAgeStudy/src/model/ProcessedPhenotype.py:74 | that order is transitive, so sorting by it is well defined |
| Sorting.Insert | SingleAgeStudy/src/model/ProcessedPhenotype.py:74 | inserting an entry adds exactly that entry to the list's contents |
| Sorting.SortEntries | SingleAgeStudy/src/model/ProcessedPhenotype.py:74 | the sort is a permutation of its input |
| Sorting.InsertOrdered | SingleAgeStudy/src/model/ProcessedPhenotype.py:74 | inserting an entry later than every listed one into an ordered list keeps it ordered by key, ties by position |
| Sorting.InsertFirst | SingleAgeStudy/src/model/ProcessedPhenotype.py:74 | an entry whose key is below the head's goes first and the list stays ordered |
| Sorting.InsertAfterFirst | SingleAgeStudy/src/model/ProcessedPhenotype.py:74 | an entry not below the head's key, inserted into the rest, keeps the whole list ordered |
| Sorting.InsertSource | SingleAgeStudy/src/model/ProcessedPhenotype.py:74 | every entry after an insertion is the inserted entry or one of the list's |
| Sorting.SortEntriesOrdered | SingleAgeStudy/src/model/ProcessedPhenotype.py:73-92 | sorting a list read in order yields it ordered by key, with equal keys in their original order |
| Sorting.Tagged | SingleAgeStudy/src/model/ProcessedPhenotype.py:73-92 | each element is tagged with its key and its position, and positions increase |
| Sorting.InsertItems | SingleAgeStudy/src/model/ProcessedPhenotype.py:74 | inserting an entry adds exactly its element to the elements |
| Sorting.SortEntriesItems | SingleAgeStudy/src/model/ProcessedPhenotype.py:73-92 | the sorted elements are a permutation of the input's |
| Sorting.ItemsSnoc | SingleAgeStudy/src/model/ProcessedPhenotype.py:74 | the elements of a list are those of all but its last entry, then the last entry's element |
| Sorting.StableSort | SingleAgeStudy/src/model/ProcessedPhenotype.py:73-92 | `sorted(items, key=...)`: a permutation of the items, each the item at a recorded original position, in non-decreasing key order, with equal keys kept in their original order |
| Sorting.StableSortFacts | SingleAgeStudy/src/model/ProcessedPhenotype.py:73-92 | the sorted entries are the tagged input permuted and ordered, each entry still carrying its own key and element |
| Population.PhenotypeData.constructor | SingleAgeStudy/src/model/PhenotypeData.py:29-34 | a new measurement holds its key, its phenotype name and individual name (either may be null), its value and age, and no derived values yet |
| Population.PhenotypeData.AddProcessedData | SingleAgeStudy/src/model/PhenotypeData.py:81-98 | a ProcessedPhenotypeData is appended; any other argument, None included, raises PhenotypeDataException and leaves the list unchanged |
| Population.PhenotypeData.ToString | SingleAgeStudy/src/model/PhenotypeData.py:100-105 | the text exists exactly when the individual name and phenotype name are not null and the age is a string; otherwise the concatenation raises TypeError |
| Population.PhenotypeData.ToStringFields | SingleAgeStudy/src/model/PhenotypeData.py:100-105 | with non-null, tab-free fields the text splits at tabs into individual, age, phenotype and the value's text, "NaN" for a missing value |
| Population.Individual.constructor | SingleAgeStudy/src/model/Individual.py:28-35 | a new individual has its name and strain number and no measurements yet |
| Population.Individual.AddData | SingleAgeStudy/src/model/Individual.py:61-63 | the argument is appended to the measurement list, unchecked |
| Population.Strain.constructor | SingleAgeStudy/src/model/Strain.py:25-28 | a new strain has its number and control flag, no individuals and no processed strains |
| Population.Strain.AddProcessedStrain | SingleAgeStudy/src/model/Strain.py:49-51 | the processed strain is appended, unchecked |
| Population.Strain.AddIndividual | SingleAgeStudy/src/model/Strain.py:61-64 | an Individual is appended; any other argument leaves the list unchanged |
| Population.Strain.ToString | SingleAgeStudy/src/model/Strain.py:97-99 | the text of a strain is its number |
| Population.Strain.Equals | SingleAgeStudy/src/model/Strain.py:94-95 | two strains are equal exactly when their texts, that is their numbers, are; comparing with an object without a number raises AttributeError |
| GwasAnalysis.GWASAnalysis.constructor | SingleAgeStudy/src/model/GWASAnalysis.py:27-37 | a new analysis holds its key, phenotype, age and alpha and owns no phenotype value, covariable or identified SNP |
| GwasAnalysis.GWASAnalysis.AddPhenotypeValue | SingleAgeStudy/src/model/GWASAnalysis.py:56-59 | a GWASPhenotypeValue is appended at the end of its list; any other argument is silently ignored; the other two lists are untouched |
| GwasAnalysis.GWASAnalysis.AddCovariable | SingleAgeStudy/src/model/GWASAnalysis.py:70-73 | a GWASCovariableValue is appended at the end of its list; any other argument is silently ignored; the other two lists are untouched |
| GwasAnalysis.GWASAnalysis.AddIdentifiedSnp | SingleAgeStudy/src/model/GWASAnalysis.py:83-86 | a GWASIdentifiedSNP is appended at the end of its list; any other argument is silently ignored; the other two lists are untouched |
| GwasAnalysis.GWASAnalysis.Equals | SingleAgeStudy/src/model/GWASAnalysis.py:89-90 | comparing two analyses always raises AttributeError, because the key column is `gwas_id` and there is no `id` |
| GwasAnalysis.GWASAnalysis.ToString | SingleAgeStudy/src/model/GWASAnalysis.py:92-94 | printing an analysis always raises AttributeError for the same missing `id` |
| Store.Unlink | SingleAgeStudy/src/model/PhenotypeData.py:34 | deleting phenotype data keeps every processed data row and sets to null exactly the references to the deleted data |
| Store.KeepMutationsOutside | SingleAgeStudy/src/model/AnalyzedGene.py:29 | exactly the analyzed mutations whose gene is not deleted are kept, each unchanged |
| Store.DeleteAnalyzedGene | SingleAgeStudy/src/model/AnalyzedGene.py:29 | deleting an analyzed gene deletes exactly its analyzed mutations, and nothing else changes |
| Store.DeleteAnalyzedPhenotype | SingleAgeStudy/src/model/AnalyzedPhenotype.py:40 | deleting an analyzed phenotype deletes exactly its genes and exactly the analyzed mutations filed under those genes; the surviving mutations keep their gene, and no other table changes |
| Store.DeleteProcessedPhenotype | SingleAgeStudy/src/model/ProcessedPhenotype.py:42-45 | deleting a processed phenotype deletes exactly its processed strains, processed mutations, analyzed phenotypes, their genes and those genes' analyzed mutations, and every processed data row with its name and age; no other table changes |
| Store.DeleteIndividual | SingleAgeStudy/src/model/Individual.py:34 | deleting an individual removes exactly that individual and its phenotype data, the other rows unchanged; every processed data row stays, and its reference becomes None exactly when it named data measured on that individual |
| Store.DeleteStrain | SingleAgeStudy/src/model/Strain.py:27-28 | deleting a strain removes exactly that strain, its individuals and their phenotype data, the other rows unchanged; processed data that named the deleted data become None; no other table changes; it is refused with AssertionError exactly when a processed strain names the strain, whose key column it would have to blank |
| Store.DeleteGwasAnalysis | SingleAgeStudy/src/model/GWASAnalysis.py:35-37 | deleting an analysis removes exactly that analysis and exactly the strain values, covariables and identified SNPs recorded under it; no other table changes |
| Store.DeleteAnalyzedGeneKeepsIntegrity | SingleAgeStudy/src/model/AnalyzedMutation.py:31 | the cascade from an analyzed gene leaves every foreign key pointing at an existing row |
| Store.DeleteAnalyzedPhenotypeKeepsIntegrity | SingleAgeStudy/src/model/AnalyzedGene.py:35 | the cascade from an analyzed phenotype leaves every foreign key pointing at an existing row |
| Store.DeleteProcessedPhenotypeKeepsIntegrity | SingleAgeStudy/src/model/ProcessedPhenotypeData.py:39-41 | the cascade from a processed phenotype leaves every foreign key pointing at an existing row |
| Store.DeleteIndividualKeepsIntegrity | SingleAgeStudy/src/model/ProcessedPhenotypeData.py:34 | the cascade from an individual leaves every foreign key pointing at an existing row |
| Store.DeleteStrainKeepsIntegrity | SingleAgeStudy/src/model/ProcessedStrain.py:35-44 | an accepted strain deletion leaves every foreign key pointing at an existing row |
| Store.DeleteGwasAnalysisKeepsIntegrity | SingleAgeStudy/src/model/GWASPhenotypeValue.py:23 | the cascade from an analysis leaves every foreign key pointing at an existing row |
| Store.SharedDataDeletedWithEitherMethod | SingleAgeStudy/src/model/ProcessedPhenotypeData.py:39-41 | since processed data joins its phenotype on name and age only, deleting the MEAN phenotype deletes data the MEDIAN phenotype of the same name and age still owns |
| Annotation.UsedLines | SingleAgeStudy/script/gwas_gene_mapping/gwas_result_gene_mapping.py:60-62 | the used lines are the first field of every families row, one per row and in file order; it fails with IndexError exactly when some row is empty |
| Annotation.ReadUsedLines | SingleAgeStudy/script/gwas_gene_mapping/gwas_result_gene_mapping.py:60-62 | the loop over the families rows returns exactly `UsedLines` of those rows, the error included |
| Annotation.NoColumns | SingleAgeStudy/script/gwas_gene_mapping/gwas_result_gene_mapping.py:76-78 | the initial `column` map has exactly the header names as keys |
| Annotation.AddRow | SingleAgeStudy/script/gwas_gene_mapping/gwas_result_gene_mapping.py:80-81 | zipping one row into the columns never adds or removes a header key |
| Annotation.ColumnsOf | SingleAgeStudy/script/gwas_gene_mapping/gwas_result_gene_mapping.py:76-81 | after all data rows the column map still has exactly the header names as keys |
| Annotation.ReadColumns | SingleAgeStudy/script/gwas_gene_mapping/gwas_result_gene_mapping.py:76-81 | the nested row/zip loop builds exactly `ColumnsOf(header, rows)` |
| Annotation.Enumerate | SingleAgeStudy/script/gwas_gene_mapping/gwas_result_gene_mapping.py:147-158 | iterating a Python set visits each member exactly once and nothing else, in an unspecified order |
| Annotation.AddRowDistinct | SingleAgeStudy/script/gwas_gene_mapping/gwas_result_gene_mapping.py:80-81 | with distinct header names, zipping a row appends its i-th field to the i-th column when the row is long enough, and nothing otherwise |
| Annotation.AddRowUntouched | SingleAgeStudy/script/gwas_gene_mapping/gwas_result_gene_mapping.py:80-81 | a column whose name is not in the zipped header is left as it was |
| Annotation.ColumnsOfDistinct | SingleAgeStudy/script/gwas_gene_mapping/gwas_result_gene_mapping.py:79-81 | with distinct header names, column i holds the i-th field of every row that has one, in row order: short rows leave later columns shorter and extra fields are dropped |
| Annotation.RowFields | SingleAgeStudy/script/gwas_gene_mapping/gwas_result_gene_mapping.py:135-136 | reading `column[h][index]` for every header succeeds exactly when every column is long enough, and then gives one field per header in header order; otherwise IndexError |
| Annotation.TabFieldsJoin | SingleAgeStudy/script/gwas_gene_mapping/gwas_result_gene_mapping.py:134-136 | appending `"\t" + field` for each further field to a tab-joined line tab-joins the whole field list |
| Annotation.AnnotationTextJoin | SingleAgeStudy/script/gwas_gene_mapping/gwas_result_gene_mapping.py:134 | the annotation prefix is the eight annotation fields (id, gene id, symbol, position, type, used count, catalogue count, total) joined by tabs |
| Annotation.AnnotationTabFree | SingleAgeStudy/script/gwas_gene_mapping/gwas_result_gene_mapping.py:134 | when the effect's text fields hold no tab, none of the eight annotation fields does, so the prefix splits back into exactly eight fields |
| Annotation.CarrierLines | SingleAgeStudy/script/gwas_gene_mapping/gwas_result_gene_mapping.py:113 | a line is among the carriers of a variant exactly when the association table holds that (variant, line) pair |
| Annotation.Renamed | SingleAgeStudy/script/gwas_gene_mapping/gwas_result_gene_mapping.py:117 | every carrier line name has `dgrp` replaced by `line_`, one result per input and in order |
| Annotation.UsedAtMostAll | SingleAgeStudy/script/gwas_gene_mapping/gwas_result_gene_mapping.py:119-122 | the number of carrier lines used by the run never exceeds the number of carrier lines in the catalogue |
| Annotation.EffectsFor | SingleAgeStudy/script/gwas_gene_mapping/gwas_result_gene_mapping.py:97 | the retrieved effects are exactly the catalogue effects whose variant is one of the requested ids |
| Annotation.EffectIds | SingleAgeStudy/script/gwas_gene_mapping/gwas_result_gene_mapping.py:100-104 | the retrieved-variant list holds the variant of each effect, one entry per effect and in effect order |
| Annotation.EffectIdsMembers | SingleAgeStudy/script/gwas_gene_mapping/gwas_result_gene_mapping.py:104 | an id is in the retrieved-variant list exactly when some effect names it |
| Annotation.CountCachesHit | SingleAgeStudy/script/gwas_gene_mapping/gwas_result_gene_mapping.py:108-110 | for a variant already cached both caches are reused unchanged and still hold the counts of exactly the variants seen |
| Annotation.CountCachesMiss | SingleAgeStudy/script/gwas_gene_mapping/gwas_result_gene_mapping.py:111-125 | a variant seen for the first time is queried once and both caches gain exactly its catalogue count and used-line count |
| GwasJoin.AnnotationHeadersTabFree | SingleAgeStudy/script/gwas_gene_mapping/gwas_result_gene_mapping.py:84 | none of the eight annotation column names holds a tab, so the header splits back into them |
| GwasJoin.HeaderLineFields | SingleAgeStudy/script/gwas_gene_mapping/gwas_result_gene_mapping.py:84-87 | the gene-map header ends in a newline and, without it, splits at tabs into the eight annotation names followed by the result's own header names |
| GwasJoin.EffectLineFields | SingleAgeStudy/script/gwas_gene_mapping/gwas_result_gene_mapping.py:134-137 | a gene-map line ends in a newline and, for tab-free text, splits into the eight annotation fields (id, FlyBase id, symbol, position, type, used/all/total counts) followed by the SNP's row |
| GwasJoin.EffectLines | SingleAgeStudy/script/gwas_gene_mapping/gwas_result_gene_mapping.py:103-139 | the only way the effect loop fails is IndexError, from a result row shorter than the header |
| GwasJoin.EffectLinesSnoc | SingleAgeStudy/script/gwas_gene_mapping/gwas_result_gene_mapping.py:128-139 | one more effect whose SNP is in the column appends its annotated line, or fails with its row's error, or propagates an earlier failure |
| GwasJoin.EffectLinesSucceed | SingleAgeStudy/script/gwas_gene_mapping/gwas_result_gene_mapping.py:103-139 | when every effect's SNP is in the column, the loop succeeds exactly when every effect's row is complete |
| GwasJoin.RowsCompleteInit | SingleAgeStudy/script/gwas_gene_mapping/gwas_result_gene_mapping.py:103-139 | dropping the last effect keeps every remaining effect's row complete |
| GwasJoin.AnnotatedLinesSnoc | SingleAgeStudy/script/gwas_gene_mapping/gwas_result_gene_mapping.py:103-139 | the reference lines of the effects are those of all but the last, followed by the last effect's annotated line |
| GwasJoin.EffectLinesContent | SingleAgeStudy/script/gwas_gene_mapping/gwas_result_gene_mapping.py:103-139 | with every row complete, the loop writes exactly the reference lines: the i-th effect's annotation and row, for each i |
| GwasJoin.EffectLinesOnePerEffect | SingleAgeStudy/script/gwas_gene_mapping/gwas_result_gene_mapping.py:103-139 | with every SNP in the column, the body fails exactly when some row is cut short, and otherwise has one line per effect, in query order, each that effect's counts and its SNP's first row |
| GwasJoin.MissingLineFields | SingleAgeStudy/script/gwas_gene_mapping/gwas_result_gene_mapping.py:165-168 | a missing-SNP line ends in a newline and, because every field is followed by a tab, splits into the row's fields plus one trailing empty field |
| GwasJoin.FieldsTabbedJoin | SingleAgeStudy/script/gwas_gene_mapping/gwas_result_gene_mapping.py:165-167 | writing each field followed by a tab is the tab-join of the fields plus one final tab |
| GwasJoin.MissingLines | SingleAgeStudy/script/gwas_gene_mapping/gwas_result_gene_mapping.py:158-169 | the only way the missing-SNP loop fails is IndexError, from a row shorter than the header |
| GwasJoin.MissingLinesSnoc | SingleAgeStudy/script/gwas_gene_mapping/gwas_result_gene_mapping.py:158-169 | one more missing SNP in the column appends its row line, or fails with its row's error, or propagates an earlier failure |
| GwasJoin.MissingLinesSucceed | SingleAgeStudy/script/gwas_gene_mapping/gwas_result_gene_mapping.py:158-169 | when every listed SNP is in the column, the loop succeeds exactly when every listed SNP's row is complete |
| GwasJoin.SnpRowsCompleteInit | SingleAgeStudy/script/gwas_gene_mapping/gwas_result_gene_mapping.py:158-169 | dropping the last listed SNP keeps every remaining row complete |
| GwasJoin.RowLinesSnoc | SingleAgeStudy/script/gwas_gene_mapping/gwas_result_gene_mapping.py:158-169 | the reference lines of the listed SNPs are those of all but the last, followed by the last SNP's row line |
| GwasJoin.MissingLinesContent | SingleAgeStudy/script/gwas_gene_mapping/gwas_result_gene_mapping.py:158-169 | with every row complete, the loop writes exactly the reference lines, one per listed SNP in order |
| GwasJoin.MissingLinesOnePerSnp | SingleAgeStudy/script/gwas_gene_mapping/gwas_result_gene_mapping.py:158-169 | with every listed SNP in the column, the lines fail exactly when some row is cut short, and otherwise are one field-then-tab line per SNP, in the order visited |
| GwasJoin.MissingReport | SingleAgeStudy/script/gwas_gene_mapping/gwas_result_gene_mapping.py:149-169 | the missing-SNP file can only fail with IndexError |
| GwasJoin.MapResult | SingleAgeStudy/script/gwas_gene_mapping/gwas_result_gene_mapping.py:56-169 | the script fails with IndexError on an empty families row, with StopIteration exactly when the result file is empty, with KeyError("SNP") exactly when its header lacks that column, and with no other error than these |
| GwasJoin.EffectLinesStep | SingleAgeStudy/script/gwas_gene_mapping/gwas_result_gene_mapping.py:103-139 | one pass of the effect loop: an effect whose SNP is absent is skipped, otherwise its line is appended or its row's error ends the loop |
| GwasJoin.AnnotateEffects | SingleAgeStudy/script/gwas_gene_mapping/gwas_result_gene_mapping.py:100-139 | the loop with its two count caches writes exactly `EffectLines`, records every effect's SNP in order, and queries the carriers once per distinct SNP |
| GwasJoin.EffectLinesPrefixError | SingleAgeStudy/script/gwas_gene_mapping/gwas_result_gene_mapping.py:136 | an IndexError on some effect ends the whole script with that error, whatever effects follow |
| GwasJoin.WriteMissing | SingleAgeStudy/script/gwas_gene_mapping/gwas_result_gene_mapping.py:149-169 | the loop writes exactly `MissingReport`: nothing when no SNP is missing, else the header line and the listed SNPs' lines |
| GwasJoin.MissingLinesPrefixError | SingleAgeStudy/script/gwas_gene_mapping/gwas_result_gene_mapping.py:167 | an IndexError on some missing SNP ends the whole file with that error, whatever SNPs follow |
| GwasJoin.MapGwasResult | SingleAgeStudy/script/gwas_gene_mapping/gwas_result_gene_mapping.py:56-169 | the script produces exactly `MapResult` for the order in which it visits the missing SNPs, that order lists each missing SNP once, and the carriers are queried once per distinct retrieved SNP |
| GwasJoin.MissingMeansNoEffect | SingleAgeStudy/script/gwas_gene_mapping/gwas_result_gene_mapping.py:147 | a SNP is reported missing exactly when it is in the result's SNP column and the catalogue holds no effect for it |
| GwasJoin.FieldColumnFull | SingleAgeStudy/script/gwas_gene_mapping/gwas_result_gene_mapping.py:79-81 | when every row is long enough, the column gathered for a header position has one value per row |
| GwasJoin.WellFormedSucceeds | SingleAgeStudy/script/gwas_gene_mapping/gwas_result_gene_mapping.py:56-169 | with non-empty families rows and a result whose distinct header holds "SNP" and whose rows are as long as the header, the script does not fail |
| GwasJoin.MapResultParts | SingleAgeStudy/script/gwas_gene_mapping/gwas_result_gene_mapping.py:56-169 | a successful run is made of the used lines, the parsed result with a SNP column, the effect lines and the missing-SNP file, each complete |
| GwasJoin.GenemapLayout | SingleAgeStudy/script/gwas_gene_mapping/gwas_result_gene_mapping.py:83-139 | a successful gene map is the header, then exactly one line per retrieved effect in query order, each that effect's annotation followed by its SNP's row |
| GwasJoin.MissingReportLayout | SingleAgeStudy/script/gwas_gene_mapping/gwas_result_gene_mapping.py:149-169 | a complete missing-SNP file is empty when nothing is missing, else the tab-joined header and one line per listed SNP with that SNP's row |
| GwasJoin.MissingLayout | SingleAgeStudy/script/gwas_gene_mapping/gwas_result_gene_mapping.py:146-169 | in a successful run the missing file is empty when no SNP is missing, else the result's header and one line per missing SNP in the order visited |
| EpistasisJoin.HeaderLineFields | SingleAgeStudy/script/epistasis_gene_mapping/epistasis_result_gene_mapping.py:97-101 | the gene-map header is newline-terminated and, without the newline, splits on tabs into the eight first-SNP names, the eight result columns and the eight second-SNP names |
| EpistasisJoin.Filled | SingleAgeStudy/script/epistasis_gene_mapping/epistasis_result_gene_mapping.py:91 | dropping empty fields never lengthens a row and leaves no empty field |
| EpistasisJoin.FilledKeeps | SingleAgeStudy/script/epistasis_gene_mapping/epistasis_result_gene_mapping.py:91 | a row with no empty field is kept unchanged |
| EpistasisJoin.FilledRows | SingleAgeStudy/script/epistasis_gene_mapping/epistasis_result_gene_mapping.py:89-91 | every data row is cleaned of its empty fields, one cleaned row per row and in order |
| EpistasisJoin.FirstEffects | SingleAgeStudy/script/epistasis_gene_mapping/epistasis_result_gene_mapping.py:123-146 | the remembered-effect map has exactly the variants of the retrieved effects as keys |
| EpistasisJoin.FirstEffectsSnoc | SingleAgeStudy/script/epistasis_gene_mapping/epistasis_result_gene_mapping.py:131-146 | one more effect is remembered only when its variant has no effect yet; otherwise the map is unchanged |
| EpistasisJoin.FirstEffectsFirst | SingleAgeStudy/script/epistasis_gene_mapping/epistasis_result_gene_mapping.py:131-146 | for every retrieved variant the remembered effect is its first effect in query order |
| EpistasisJoin.FirstEffectsKept | SingleAgeStudy/script/epistasis_gene_mapping/epistasis_result_gene_mapping.py:131-144 | a variant already remembered keeps its first effect when a later effect of the same variant arrives |
| EpistasisJoin.FirstEffectsLast | SingleAgeStudy/script/epistasis_gene_mapping/epistasis_result_gene_mapping.py:131-144 | a variant first met in the last effect is remembered with that effect, and no earlier effect names it |
| EpistasisJoin.PairLineFields | SingleAgeStudy/script/epistasis_gene_mapping/epistasis_result_gene_mapping.py:176-180 | with tab-free text a gene-map line is newline-terminated and splits into the first SNP's eight annotation fields, the pair's result fields and the second SNP's eight annotation fields |
| EpistasisJoin.PairStep | SingleAgeStudy/script/epistasis_gene_mapping/epistasis_result_gene_mapping.py:158-187 | one pair: a resolved pair adds to the gene map only, and the line it adds is the first SNP's annotation (variant, FlyBase id, symbol, position, type, used-line count, line count, total), a tab before each of the pair's result fields, a tab and the second SNP's annotation, then a newline; an unresolved pair adds to the missing file only, and what it adds is the previous `output_line` followed by a tab before each of the pair's result fields; it fails with IndexError on a short second list or column, or with NameError when an unresolved pair finds no previous line |
| EpistasisJoin.PairRows | SingleAgeStudy/script/epistasis_gene_mapping/epistasis_result_gene_mapping.py:158-187 | after n pairs each pair has produced exactly one line, the gene map holds one line per resolved pair, and `output_line` is bound exactly when n > 0; the only errors are IndexError and the NameError on `output_line` |
| EpistasisJoin.PairRowsNext | SingleAgeStudy/script/epistasis_gene_mapping/epistasis_result_gene_mapping.py:158 | after i successful pairs, pair i+1 is exactly one more step on what they wrote |
| EpistasisJoin.PairRowsFailed | SingleAgeStudy/script/epistasis_gene_mapping/epistasis_result_gene_mapping.py:158-187 | once a pair raises, every later pair count ends in that same error: the exception aborts the loop |
| EpistasisJoin.PairColumns | SingleAgeStudy/script/epistasis_gene_mapping/epistasis_result_gene_mapping.py:79-94 | after the three skipped lines the column map holds every fixed column name, both SNP columns included |
| EpistasisJoin.ReadPairColumns | SingleAgeStudy/script/epistasis_gene_mapping/epistasis_result_gene_mapping.py:86-94 | the column loop over the cleaned rows builds exactly `PairColumns` |
| EpistasisJoin.MapPairs | SingleAgeStudy/script/epistasis_gene_mapping/epistasis_result_gene_mapping.py:61-187 | an empty families row fails with IndexError; a result with fewer than three lines fails with StopIteration, and only then; a successful run's gene map starts with the fixed header |
| EpistasisJoin.CachedMiss | SingleAgeStudy/script/epistasis_gene_mapping/epistasis_result_gene_mapping.py:131-146 | a variant met for the first time gets its effect remembered and both counts cached, and the caches grow by one variant |
| EpistasisJoin.CachedHit | SingleAgeStudy/script/epistasis_gene_mapping/epistasis_result_gene_mapping.py:131 | a variant met before leaves the effect map and both caches as they are |
| EpistasisJoin.CollectEffects | SingleAgeStudy/script/epistasis_gene_mapping/epistasis_result_gene_mapping.py:122-146 | the effect loop lists the variant of every effect in order, remembers each variant's first effect with both its counts, and queries the catalogue once per distinct variant |
| EpistasisJoin.ResolvedLine | SingleAgeStudy/script/epistasis_gene_mapping/epistasis_result_gene_mapping.py:168-180 | the line built from the caches is the first SNP's annotation, the pair's fields and the second SNP's annotation |
| EpistasisJoin.WritePair | SingleAgeStudy/script/epistasis_gene_mapping/epistasis_result_gene_mapping.py:158-187 | one iteration from the caches and the retrieved list does exactly what `PairStep` specifies, so the loop so far equals `PairRows` of one more pair |
| EpistasisJoin.WritePairs | SingleAgeStudy/script/epistasis_gene_mapping/epistasis_result_gene_mapping.py:158-187 | the pair loop returns exactly `PairRows` over all pairs, stopping at the first error |
| EpistasisJoin.MapEpistasisResult | SingleAgeStudy/script/epistasis_gene_mapping/epistasis_result_gene_mapping.py:56-187 | the script computes exactly `MapPairs` and queries the catalogue once per distinct variant with an effect |
| EpistasisJoin.UnresolvedFirstPairFails | SingleAgeStudy/script/epistasis_gene_mapping/epistasis_result_gene_mapping.py:184-187 | when the first pair is not resolved, the run fails with NameError on `output_line` |
| EpistasisJoin.StaleLineCarriedOver | SingleAgeStudy/script/epistasis_gene_mapping/epistasis_result_gene_mapping.py:176-187 | a resolved pair followed by an unresolved one writes the whole gene-map line of the first pair, newline included, followed by the second pair's fields, to the missing file |
| EpistasisJoin.GenemapLinesAreResolvedPairs | SingleAgeStudy/script/epistasis_gene_mapping/epistasis_result_gene_mapping.py:158-187 | after a successful run the gene map holds the header plus one line per resolved pair, and the two files together hold one line per pair |
| EpistasisJoin.ResolvedIndices | SingleAgeStudy/script/epistasis_gene_mapping/epistasis_result_gene_mapping.py:165 | the positions of the resolved pairs among the first n, in increasing order, each below n, with every resolved position among them and as many of them as there are resolved pairs |
| EpistasisJoin.UnresolvedIndices | SingleAgeStudy/script/epistasis_gene_mapping/epistasis_result_gene_mapping.py:183 | the positions of the unresolved pairs among the first n, in increasing order, each below n, with every unresolved position among them and n minus the resolved count of them |
| EpistasisJoin.PairRowsGenemap | SingleAgeStudy/script/epistasis_gene_mapping/epistasis_result_gene_mapping.py:158-183 | after n successful pairs the k-th gene-map line is the line of the k-th resolved pair: its first SNP's annotation, its result fields and its second SNP's annotation |
| EpistasisJoin.PairRowsMissing | SingleAgeStudy/script/epistasis_gene_mapping/epistasis_result_gene_mapping.py:158-187 | after n successful pairs the k-th missing-file text belongs to the k-th unresolved pair j: j is not the first pair, and the text is the `output_line` left by pair j-1 followed by a tab before each of pair j's result fields |
| EpistasisJoin.PairGenemapLayout | SingleAgeStudy/script/epistasis_gene_mapping/epistasis_result_gene_mapping.py:97-183 | a successful run's gene map is the fixed header followed, line k+1, by the gene-map line of the k-th resolved pair, built from the first-met effects, the catalogue counts and the result columns |
| SnpSets.FileList | SingleAgeStudy/script/epistasis_analysis/prepare_snp_sets.py:44-45 | the option gives at least one file name, each without leading or trailing whitespace |
| SnpSets.StripClean | SingleAgeStudy/script/epistasis_analysis/prepare_snp_sets.py:45 | stripping a name with no surrounding whitespace leaves it unchanged |
| SnpSets.FileListJoin | SingleAgeStudy/script/epistasis_analysis/prepare_snp_sets.py:44-45 | names without spaces or surrounding whitespace, joined by single spaces, come back unchanged from the option |
| SnpSets.RowId | SingleAgeStudy/script/epistasis_analysis/prepare_snp_sets.py:77 | the ID of a row is the row's value under an "ID" header column; KeyError exactly when the header has no such column, TypeError when the row is too short to reach it |
| SnpSets.RowIdSingle | SingleAgeStudy/script/epistasis_analysis/prepare_snp_sets.py:77 | with a single "ID" column, a row's ID is its value in that column, or TypeError when the row stops before it |
| SnpSets.FileSnpsSucceeds | SingleAgeStudy/script/epistasis_analysis/prepare_snp_sets.py:74-79 | a file is read without error exactly when every non-blank row has an ID |
| SnpSets.FileSnpsMembers | SingleAgeStudy/script/epistasis_analysis/prepare_snp_sets.py:76-79 | a file contributes exactly the IDs of its non-blank rows that contain "SNP" |
| SnpSets.SetASucceeds | SingleAgeStudy/script/epistasis_analysis/prepare_snp_sets.py:72-79 | set A is built exactly when every listed file exists and reads without error |
| SnpSets.SetAMembers | SingleAgeStudy/script/epistasis_analysis/prepare_snp_sets.py:72-79 | set A is the union of the contributions of the listed files |
| SnpSets.SetAOnlySnps | SingleAgeStudy/script/epistasis_analysis/prepare_snp_sets.py:78-79 | every member of set A contains "SNP" |
| SnpSets.Kept | SingleAgeStudy/script/epistasis_analysis/prepare_snp_sets.py:63-82 | the kept set contains set A and every common catalogue SNP |
| SnpSets.KeptMembers | SingleAgeStudy/script/epistasis_analysis/prepare_snp_sets.py:63-82 | an identifier is kept exactly when it is in set A or names a catalogue SNP whose reference and alternative counts both reach 10 |
| SnpSets.Block | SingleAgeStudy/script/epistasis_analysis/prepare_snp_sets.py:88-103 | the lines a set occupies join to the same text as the set's members, and there is always at least one line |
| SnpSets.SnpSetFiles | SingleAgeStudy/script/epistasis_analysis/prepare_snp_sets.py:44-107 | the script fails exactly when set A cannot be built, and then with that same error |
| SnpSets.KeptFileLines | SingleAgeStudy/script/epistasis_analysis/prepare_snp_sets.py:88 | read back at newlines, the kept file lists the kept identifiers, or one empty line for an empty set |
| SnpSets.SetsWritesText | SingleAgeStudy/script/epistasis_analysis/prepare_snp_sets.py:97-104 | the sets file is the six writes in order: SET_A, set A with a final newline, END, SET_B, the kept set with a final newline, END |
| SnpSets.SetsFileLines | SingleAgeStudy/script/epistasis_analysis/prepare_snp_sets.py:97-104 | read back at newlines, the sets file is SET_A, the lines of set A, END, SET_B, the lines of the kept set, END, and an empty remainder |
| SnpSets.CollectSetA | SingleAgeStudy/script/epistasis_analysis/prepare_snp_sets.py:72-79 | the nested loop over files and rows builds exactly `SetA`, the error included |
| SnpSets.FileSnpsPrefixError | SingleAgeStudy/script/epistasis_analysis/prepare_snp_sets.py:76-79 | an error on some row ends the whole file with that error, whatever rows follow |
| SnpSets.SetAPrefixError | SingleAgeStudy/script/epistasis_analysis/prepare_snp_sets.py:73-79 | an error on some file ends the whole set with that error, whatever files follow |
| SnpSets.PrepareSnpSets | SingleAgeStudy/script/epistasis_analysis/prepare_snp_sets.py:44-107 | the script produces exactly `SnpSetFiles` for the orders in which it iterates the two sets, and each order lists its set's members exactly once |
| Families.Key | SingleAgeStudy/src/util/gwas/FastLMMWrapper.py:418-420 | a key is the family id, a colon and the individual id, so it always holds a colon |
| Families.KeyInjective | SingleAgeStudy/src/util/gwas/FastLMMWrapper.py:418-420 | when family ids hold no colon, equal keys come from equal (family id, individual id) pairs |
| Families.FamilyNames | SingleAgeStudy/src/util/gwas/FastLMMWrapper.py:251-253 | the genotype family order is the key of every .ped row, one per row and in file order; it fails with IndexError exactly when some row has fewer than two fields |
| Families.ReadFamilyNames | SingleAgeStudy/src/util/gwas/FastLMMWrapper.py:251-253 | the loop over the genotype reader returns exactly `FamilyNames` of the rows, the error included |
| Families.FamilyNamesPrefixError | SingleAgeStudy/src/util/gwas/FastLMMWrapper.py:252-253 | a row that raises in a prefix of the genotype file makes the whole read raise |
| Families.AddRow | SingleAgeStudy/src/util/gwas/FastLMMWrapper.py:269-273 | a data row appends its key to the key list, stores its fields rejoined with single spaces under that key (replacing any earlier row with the same key), leaves every other stored row alone, and leaves its family id in `fid` |
| Families.OrderCheckPasses | SingleAgeStudy/src/util/gwas/FastLMMWrapper.py:279-284 | the order check finds no difference exactly when every genotype key it visits equals the one-character string of the last family id at that index |
| Families.SameOrderStillReordered | SingleAgeStudy/src/util/gwas/FastLMMWrapper.py:279-284 | a genotype key built from any non-empty id never equals one character, so a reordered file is produced even when both files already list the families in the same order |
| Families.CheckOrder | SingleAgeStudy/src/util/gwas/FastLMMWrapper.py:279-284 | the loop with its early break gives exactly `OrderCheck`, including the IndexError when it runs past the keys or the last family id |
| Families.Reordered | SingleAgeStudy/src/util/gwas/FastLMMWrapper.py:290-305 | the rewritten file holds, for each genotype key in order, the row stored under it and a newline; it fails with the wrapper's Exception exactly when some genotype key has no row |
| Families.WriteOrdered | SingleAgeStudy/src/util/gwas/FastLMMWrapper.py:298-305 | the writing loop returns exactly `Reordered`, the error included |
| FastLmm.ReadTable | SingleAgeStudy/src/util/gwas/FastLMMWrapper.py:263-274 | reading the data rows succeeds exactly when every row has the required number of fields (exactly 3 phenotype fields, at least 3 covariable fields), giving one key per row; otherwise the wrapper's Exception |
| FastLmm.ReadTableKeys | SingleAgeStudy/src/util/gwas/FastLMMWrapper.py:269-272 | key i is the key of row i, and the family id left in `fid` is the last row's (none when the file is empty) |
| FastLmm.ReadTableStored | SingleAgeStudy/src/util/gwas/FastLMMWrapper.py:271-273 | a row is stored under every key read and under nothing else |
| FastLmm.ReadTableSnoc | SingleAgeStudy/src/util/gwas/FastLMMWrapper.py:266-274 | reading one more row adds it to the table read from the rows before it |
| FastLmm.StoredRowIsLast | SingleAgeStudy/src/util/gwas/FastLMMWrapper.py:273 | under a key the table holds the fields, rejoined with spaces, of the last row with that key: later duplicates overwrite earlier ones |
| FastLmm.ReadTablePrefix | SingleAgeStudy/src/util/gwas/FastLMMWrapper.py:266-274 | one more iteration of the reading loop either raises on a malformed row or adds the row to the table |
| FastLmm.LoadTable | SingleAgeStudy/src/util/gwas/FastLMMWrapper.py:263-274 | the reading loop returns exactly `ReadTable`, the error included |
| FastLmm.CheckFile | SingleAgeStudy/src/util/gwas/FastLMMWrapper.py:242-310 | a short genotype row fails with IndexError, and otherwise a malformed data row fails with the wrapper's Exception |
| FastLmm.RewrittenFollowsGenotype | SingleAgeStudy/src/util/gwas/FastLMMWrapper.py:290-305 | a rewritten file has one line per genotype family, in genotype order, each the last data row with that family's key rejoined with spaces; every genotype family then has a data row |
| FastLmm.NoRowsCopied | SingleAgeStudy/src/util/gwas/FastLMMWrapper.py:279-307 | with no data row there is nothing to compare and the file is copied unchanged |
| FastLmm.SameOrderRewritten | SingleAgeStudy/src/util/gwas/FastLMMWrapper.py:279-305 | data rows already in genotype order are still rewritten, because the check compares keys with characters of the last family id |
| FastLmm.SignificantLines | SingleAgeStudy/src/util/gwas/FastLMMWrapper.py:393-398 | the reference selection keeps, in file order, only lines whose sixth field parses to a number strictly below alpha |
| FastLmm.SignificantLinesSnoc | SingleAgeStudy/src/util/gwas/FastLMMWrapper.py:393-398 | one more line is kept at the end exactly when it is significant |
| FastLmm.FilterLines | SingleAgeStudy/src/util/gwas/FastLMMWrapper.py:389-400 | the filter succeeds exactly when every line has a sixth tab field; a line without one raises IndexError, which the `except ValueError` does not catch |
| FastLmm.FilterKeepsSignificant | SingleAgeStudy/src/util/gwas/FastLMMWrapper.py:393-398 | the lines the filter keeps are exactly the significant lines, in file order |
| FastLmm.HeaderEmpty | SingleAgeStudy/src/util/gwas/FastLMMWrapper.py:389-400 | when every p-value parses, the header written is the empty string |
| FastLmm.HeaderIsLastUnparsed | SingleAgeStudy/src/util/gwas/FastLMMWrapper.py:399-400 | the header is the last line whose p-value does not parse: a later such line replaces an earlier one |
| FastLmm.FastLmmWrapper.constructor | SingleAgeStudy/src/util/gwas/FastLMMWrapper.py:84-92 | the wrapper starts with the given phenotype and covariable file names and alpha |
| FastLmm.FastLmmWrapper.CheckPhenotypeFile | SingleAgeStudy/src/util/gwas/FastLMMWrapper.py:242-310 | the phenotype check returns `CheckFile` for 3-field space-separated rows, and on success the wrapper's phenotype file becomes the ordered file |
| FastLmm.FastLmmWrapper.CheckCovariableFile | SingleAgeStudy/src/util/gwas/FastLMMWrapper.py:318-379 | the covariable check returns `CheckFile` for tab-separated rows of at least 3 fields, and on success the wrapper's covariable file becomes the ordered file |
| FastLmm.FastLmmWrapper.FilterSignificantSnp | SingleAgeStudy/src/util/gwas/FastLMMWrapper.py:387-410 | the filtering loop writes the header line and then the kept lines, exactly as `FilterLines` specifies, and fails with IndexError as it does |
| FastLmm.CheckRows | SingleAgeStudy/src/util/gwas/FastLMMWrapper.py:250-307 | the shared body of both checks computes exactly `CheckFile` |
| FastEpistasis.ReadPhenotypes | SingleAgeStudy/src/util/epistasis/FastEpistasisWrapper.py:258-278 | reading the phenotype rows succeeds exactly when every row has three fields, otherwise the wrapper's Exception; it never stores more rows than it reads |
| FastEpistasis.StoredMeansMissingHeaders | SingleAgeStudy/src/util/epistasis/FastEpistasisWrapper.py:264-271 | once a data row has been stored, `missing_headers` is True: a header row is skipped without counting, so the next row is examined again and sets the flag |
| FastEpistasis.ReadPhenotypesStep | SingleAgeStudy/src/util/epistasis/FastEpistasisWrapper.py:261-278 | a row read after a stored row, or a first row that is not a header, is stored in the table |
| FastEpistasis.HeaderThenDataFit | SingleAgeStudy/src/util/epistasis/FastEpistasisWrapper.py:262-263 | a header row and data rows that all have three fields pass the field-count check |
| FastEpistasis.HeaderThenData | SingleAgeStudy/src/util/epistasis/FastEpistasisWrapper.py:261-278 | a file that opens with a `fid iid` row followed by data rows stores every data row, keyed in order, and still reports the header as missing |
| FastEpistasis.CheckPhenotypes | SingleAgeStudy/src/util/epistasis/FastEpistasisWrapper.py:237-315 | a short genotype row fails with IndexError, and otherwise a data row without three fields fails with the wrapper's Exception |
| FastEpistasis.RewrittenWithHeader | SingleAgeStudy/src/util/epistasis/FastEpistasisWrapper.py:294-312 | the check never succeeds by copying (the unimported `copyfile` raises NameError); a successful check rewrites the file as the generic header line followed by one line per genotype family |
| FastEpistasis.GenericHeaderLine | SingleAgeStudy/src/util/epistasis/FastEpistasisWrapper.py:42 | the header line written is the generic column names joined with spaces and ended by a newline |
| FastEpistasis.FastEpistasisWrapper.constructor | SingleAgeStudy/src/util/epistasis/FastEpistasisWrapper.py:81 | the wrapper starts with the given phenotype file name |
| FastEpistasis.FastEpistasisWrapper.CheckPhenotypeFile | SingleAgeStudy/src/util/epistasis/FastEpistasisWrapper.py:237-315 | the check returns exactly `CheckPhenotypes`, and the wrapper's phenotype file becomes the ordered file only when the check succeeds |
| FastEpistasis.LoadPhenotypes | SingleAgeStudy/src/util/epistasis/FastEpistasisWrapper.py:258-278 | the row loop with its `count` and `missing_headers` variables returns exactly `ReadPhenotypes` |
| FastEpistasis.ConcatSetOfSnp | SingleAgeStudy/src/util/epistasis/FastEpistasisWrapper.py:352-370 | the writes are SET_A, the first file's lines, END, a blank line, SET_B, the second file's lines and END, in that order |
| FastEpistasis.SnpSetLines | SingleAgeStudy/src/util/epistasis/FastEpistasisWrapper.py:356-367 | for two files of newline-terminated ids, the written text splits back into the markers and the ids of each set in order |
| GwasUtil.Zip | SingleAgeStudy/src/util/gwas/GwasUtil.py:57-59 | the dictionary of a line has exactly the header's parameter names as keys |
| GwasUtil.ZipLastWins | SingleAgeStudy/src/util/gwas/GwasUtil.py:57-59 | a parameter name holds the value of the last column it heads, so a repeated name keeps its last value |
| GwasUtil.MakeDefinition | SingleAgeStudy/src/util/gwas/GwasUtil.py:57-59 | the column loop builds exactly `Zip(headers, values)` |
| GwasUtil.Step | SingleAgeStudy/src/util/gwas/GwasUtil.py:32-62 | one line never changes a header already read and adds at most one analysis at the end, keeping the earlier ones |
| GwasUtil.Read | SingleAgeStudy/src/util/gwas/GwasUtil.py:26-62 | at most one analysis per line, and analyses only once a header has been read |
| GwasUtil.ReadKeys | SingleAgeStudy/src/util/gwas/GwasUtil.py:43-59 | every analysis read sets exactly the parameters the header names |
| GwasUtil.ReadSnoc | SingleAgeStudy/src/util/gwas/GwasUtil.py:29-62 | reading one more line is one more step of the loop |
| GwasUtil.ReadDefinitions | SingleAgeStudy/src/util/gwas/GwasUtil.py:16-66 | the loop over the file's lines returns exactly the analyses of `Read`, in file order |
| GwasUtil.HeaderIsFirstContent | SingleAgeStudy/src/util/gwas/GwasUtil.py:35-43 | the header is the ';'-split of the first line that is not blank once its line breaks are stripped; no later line changes it |
| GwasUtil.BlankPrefix | SingleAgeStudy/src/util/gwas/GwasUtil.py:35-37 | lines that are blank once stripped give neither a header nor an analysis |
| GwasUtil.SkippedLine | SingleAgeStudy/src/util/gwas/GwasUtil.py:35-54 | after the header, a blank line or one whose field count differs from the header's adds no analysis |
| GwasUtil.ExpectedSnoc | SingleAgeStudy/src/util/gwas/GwasUtil.py:47-62 | the expected analyses of one more fitting line are those of the earlier lines followed by that line's dictionary |
| GwasUtil.OneDefinitionPerLine | SingleAgeStudy/src/util/gwas/GwasUtil.py:26-66 | after a non-blank header line, lines that each have as many fields as the header give exactly one analysis each, in file order, each mapping the header's names to that line's values |
| FileUtils.FindExtension | SingleAgeStudy/src/util/file/FileUtils.py:187-203 | the result is always one of ODS, XLS, XLSX, TXT, CSV; any other candidate raises, and since the exception's constructor names the undefined `MeanException` the error that escapes is a NameError |
| FileUtils.Recognised | SingleAgeStudy/src/util/file/FileUtils.py:195-203 | an isolated candidate is accepted exactly when its upper-cased form is a known extension, and the result is that upper-cased form |
| FileUtils.ExtensionAfterLastDot | SingleAgeStudy/src/util/file/FileUtils.py:189-192 | whatever comes before it, only the text after the last dot decides the result |
| FileUtils.NoDot | SingleAgeStudy/src/util/file/FileUtils.py:189-192 | a path with no dot is its own candidate extension |
| FileUtils.KnownExtension | SingleAgeStudy/src/util/file/FileUtils.py:189-203 | a path ending in a dot and a known extension, in any letter case, gives that extension upper-cased |
| Text.UpperIdempotent | SingleAgeStudy/src/util/file/FileUtils.py:195 | upper-casing twice is upper-casing once |
| Text.UpperConcat | SingleAgeStudy/src/util/file/FileUtils.py:195 | upper-casing works character by character, so it distributes over concatenation |
| FileUtils.UpperKeepsDots | SingleAgeStudy/src/util/file/FileUtils.py:189-195 | upper-casing neither adds nor removes dots |
| FileUtils.UpperSplitAtDot | SingleAgeStudy/src/util/file/FileUtils.py:189-195 | upper-casing a path keeps its dot and upper-cases both sides of it |
| FileUtils.LastDot | SingleAgeStudy/src/util/file/FileUtils.py:189-192 | a path with a dot splits at its last dot into a stem and a dot-free extension |
| FileUtils.CaseInsensitive | SingleAgeStudy/src/util/file/FileUtils.py:189-203 | a path and its upper-cased form give the same result, error included: the check ignores letter case |
| SqlManager.CheckParameter | SingleAgeStudy/src/util/sql/SqlManager.py:173-189 | the check passes exactly when the parameter is absent or already holds the user's value; an absent one is then recorded with that value, and a different recorded value aborts with SNPnetException, writing nothing; no existing row ever changes |
| SqlManager.InsertedRow | SingleAgeStudy/src/util/sql/SqlManager.py:178-182 | an absent parameter is inserted as a boolean-typed row with its own name and the user's value |
| SqlManager.CheckKeepsKeyed | SingleAgeStudy/src/util/sql/SqlManager.py:174-189 | the check keeps every row filed under its own parameter name |
| SqlManager.CheckIdempotent | SingleAgeStudy/src/util/sql/SqlManager.py:174-189 | after a check passes, the same check passes again and writes nothing |
| SqlManager.FirstValueSticks | SingleAgeStudy/src/util/sql/SqlManager.py:183-189 | once a value is recorded, asking for any other value aborts the run and leaves the table as it was |
| SqlManager.Session.constructor | SingleAgeStudy/src/util/sql/SqlManager.py:35-39 | a new session is bound to its engine's URL, sees the stored parameters, and has done nothing yet |
| SqlManager.CheckDbParameter | SingleAgeStudy/src/util/sql/SqlManager.py:173-189 | on a session, the table the session sees becomes the table `CheckParameter` leaves, with its outcome, and nothing else about the session changes |
| SqlManager.EngineUrl | SingleAgeStudy/src/util/sql/SqlManager.py:80-86 | the engine exists exactly when a path is set, and its URL is the SQLite prefix followed by that path |
| SqlManager.EngineUrlInjective | SingleAgeStudy/src/util/sql/SqlManager.py:80-86 | distinct database paths give distinct engine URLs |
| SqlManager.SqlManager.constructor | SingleAgeStudy/src/util/sql/SqlManager.py:25-27 | a new manager has no database path and no session |
| SqlManager.SqlManager.SetDbPath | SingleAgeStudy/src/util/sql/SqlManager.py:54-55 | the path becomes the argument and the session is kept |
| SqlManager.SqlManager.GetSession | SingleAgeStudy/src/util/sql/SqlManager.py:29-41 | an open session is returned as it is; otherwise a new one is opened on the engine of the path and kept, or, with no path set, the URL concatenation raises TypeError |
| SqlManager.SqlManager.CloseSession | SingleAgeStudy/src/util/sql/SqlManager.py:44-47 | the open session is closed, unchanged otherwise, and forgotten; with none open, the call raises AttributeError |
| SqlManager.SqlManager.GetEngine | SingleAgeStudy/src/util/sql/SqlManager.py:80-86 | the manager's engine is `EngineUrl` of its path |
| SqlManager.SqlManager.Delete | SingleAgeStudy/src/util/sql/SqlManager.py:122-125 | None is ignored; any other object is handed to the open session's deletions, or raises AttributeError with no session open |
| SqlManager.SessionReused | SingleAgeStudy/src/util/sql/SqlManager.py:29-41 | two calls to `get_session` with no close between them return the same session |
| SqlManager.Registry.constructor | SingleAgeStudy/src/util/sql/SqlManager.py:23 | before the first call there is no manager |
| SqlManager.Registry.GetInstance | SingleAgeStudy/src/util/sql/SqlManager.py:151-156 | the first call creates a fresh manager with no path and no session; every later call returns that same manager |
| SqlManager.SingleInstance | SingleAgeStudy/src/util/sql/SqlManager.py:151-156 | two calls to `get_instance` return the same object |
| SqlAlchemyUtil.FormatListColumn | SingleAgeStudy/src/util/sql/SQLAlchemyUtil.py:22-24 | the first column of every row, one value per row and in row order; IndexError exactly when some row has no column |
| SqlAlchemyUtil.SingleColumnRows | SingleAgeStudy/src/util/sql/SQLAlchemyUtil.py:22-24 | rows of one column each give back the list of their values |
| SqlAlchemyUtil.FormatListObject | SingleAgeStudy/src/util/sql/SQLAlchemyUtil.py:39-41 | a list of the same length holding the same objects in the same order |
| GeneOntology.NewGO | SingleAgeStudy/src/model/GO.py:5-12 | the constructor stores each of its six arguments in the matching field, whatever their order |
| GeneOntology.ToStringFields | SingleAgeStudy/src/model/GO.py:56-59 | the printed line is evidence, GO id, GO name, protein symbol, protein id and taxon joined by tabs; with tab-free fields it has exactly five tabs and splits back into those six fields |
| GeneOntology.ParseBack | SingleAgeStudy/src/model/GO.py:5-59 | splitting the printed line of a tab-free annotation and passing the fields back to the constructor in its own order rebuilds the same annotation |

## Left out

- Sorting.KeyLe: values other than None, numbers and strings (lists, tuples, objects) all rank after the strings and tie with one another. Python 2 orders such values by the name of their type and then by value. The two sort keys are declared as Float columns, `reference_value` (SingleAgeStudy/src/model/ProcessedStrain.py:36) and `weight` (SingleAgeStudy/src/model/ProcessedMutation.py:50), and `set_weight` accepts only floats (SingleAgeStudy/src/model/ProcessedMutation.py:152-154).
- External tool execution is not modelled: the plink, preFastEpistasis and smpFastEpistasis commands, the `single_snp` call and the busy-wait polling (SingleAgeStudy/src/util/gwas/FastLMMWrapper.py:109-236 and 429-438, SingleAgeStudy/src/util/epistasis/FastEpistasisWrapper.py:62-231 and 332-341). These are subprocess and foreign-library calls.
- Plotting and CSV dumping through pylab and pandas are left out. They are foreign libraries.
- The FastEpistasisWrapper `__main__` block, the OptionParser blocks of the scripts and the launcher and export scripts are left out. They are argument parsing and I/O. Only the SNP-set builder's file-list option is modelled, as a string.
- Logger is left out: every log call and `print` is a no-op in the model, including the warnings on skipped rows.
- Reading and writing files is left out, along with csv tokenising. A file is given as its rows of fields or its lines, and output files are returned as sequences of lines. The FileUtils methods that open, copy, rename, touch or create files and directories are left out too.
- The SQLAlchemy engine, sessions and queries are left out. Queries are lookups on an in-memory catalogue, an engine is its URL, and a session records what it was asked to do. `build_database`, `commit`, `rollback_session`, `commit_to_base`, `export_table`, `get_DBpath` and `get_DBfolder` are left out because they only reach the database or the file system.
- SqlManager.CheckParameter takes the user's value already converted by `str`.
- FileUtils.FindExtension models the intended string function. The second `@staticmethod` on `find_extension` (SingleAgeStudy/src/util/file/FileUtils.py:164) makes it uncallable in Python 2, and the model does not capture that.
- `GwasUtil.execute_fastlmm_analysis` is left out. It is I/O and cannot run: it uses `self` inside a static method and an undefined `parser`.
- Floating point is not modelled: values, weights, p-values and alpha are reals. Parsing a number and `str` on a float are parameters of the members that use them.
- The `.encode("utf-8")` calls of the mapping scripts are left out. Strings are sequences of characters.
- The order in which Python iterates a set or a dict is not modelled. The members that walk a set take any enumeration of it and return the order they used.
- The algorithms that compute ranks, LOW/HIGH types, ratios, fdr and MEAN/MEDIAN/IQR reference values are not part of the code, so they are not modelled.
- Plain getters (of Mutation, ProcessedStrain, Individual, GO and the others) are field reads in the model and have no members of their own.
- Component.py and Function.py add nothing to GO and are not modelled separately.
- GwasUtil.ReadDefinitions models the intended body of `read_fastlmm_gwas_analysis_definition`. As written, the class derives from `ExecutionStrategy`, which is never imported (SingleAgeStudy/src/util/gwas/GwasUtil.py:7), so loading the module raises NameError and the method is never reached. The model does not capture that.
- GwasJoin.MapResult: the `symbol`, `position` and `type` columns of `mutation_effect` are nullable, but the model treats them as strings. The TypeError that the annotation concatenation raises on a null (SingleAgeStudy/script/gwas_gene_mapping/gwas_result_gene_mapping.py:134) is not modelled.
- EpistasisJoin.MapPairs: the same nullable effect columns are treated as strings, so the TypeError that the annotation concatenation of the pair join raises on a null is not modelled.
- GwasJoin.MapResult: an error carries no partial output. By the time a later effect raises, the script has already written the header and the earlier lines to the gene-map file, and the model does not return them.
- EpistasisJoin.MapPairs: an error carries no partial output. The lines already written for the earlier pairs are not returned with the error.
- Families.Reordered: a family missing from the phenotype rows gives only the Exception. The lines the wrappers had already written and flushed to the ordered file (SingleAgeStudy/src/util/gwas/FastLMMWrapper.py:297-299, SingleAgeStudy/src/util/epistasis/FastEpistasisWrapper.py:302-304) are not modelled.
