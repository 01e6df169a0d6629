// One processed phenotype (a phenotype name, a reference-value method and
// an age) and what it owns: per-strain summaries (ProcessedStrain), per-
// variant scores (ProcessedMutation), per-individual normalised data
// (ProcessedPhenotypeData) and the analysed phenotypes derived from it.
//
// The weight of a variant is the signed, rank-weighted sum of its carrier
// strains' reference values: a LOW strain subtracts reference value × rank,
// a HIGH strain adds it, any other strain adds nothing; the sum is divided
// by the number of carrier strains.

module Processed {
  import opened Runtime
  import opened Sorting
  import opened Analyzed

  // ------------------------------------------------------------------ strains

  class ProcessedStrain {
    var phenotypeName: string
    var methodName: string
    var age: int
    var strainNumber: string
    var referenceValue: Value
    var rank: Value
    var kind: Value               // the `type` column: 'LOW', 'HIGH' or unset

    constructor (phenotypeName: string, methodName: string, age: int, strainNumber: string)
      ensures this.phenotypeName == phenotypeName && this.methodName == methodName
      ensures this.age == age && this.strainNumber == strainNumber
      ensures referenceValue == NoneValue && rank == NoneValue && kind == NoneValue
    {
      this.phenotypeName := phenotypeName;
      this.methodName := methodName;
      this.age := age;
      this.strainNumber := strainNumber;
      referenceValue, rank, kind := NoneValue, NoneValue, NoneValue;
    }

    /** `set_reference_value`: stores the value; no other field changes. */
    method SetReferenceValue(value: Value)
      modifies this`referenceValue
      ensures referenceValue == value
    {
      referenceValue := value;
    }

    /** `set_type`: stores the type; no other field changes. */
    method SetType(value: Value)
      modifies this`kind
      ensures kind == value
    {
      kind := value;
    }

    /** `assign_rank`: stores the rank; no other field changes. */
    method AssignRank(value: Value)
      modifies this`rank
      ensures rank == value
    {
      rank := value;
    }

    /**
     * `get_phenotype_name` goes through `self.phenotype`, but the back-reference
     * the owning phenotype declares is named `processed_phenotype`.
     */
    function PhenotypeNameThroughOwner(): (r: Result<string>)
      ensures r == Err(AttributeError("phenotype"))
    {
      Err(AttributeError("phenotype"))
    }
  }

  // ------------------------------------------------------------------ weights

  /** What `compute_weight` reads of one carrier strain. */
  datatype StrainView = StrainView(kind: Value, referenceValue: Value, rank: Value)

  predicate IsLow(v: StrainView) { v.kind == StrValue("LOW") }
  predicate IsHigh(v: StrainView) { v.kind == StrValue("HIGH") }

  /** A LOW or HIGH strain whose reference value or rank is not a number raises TypeError. */
  predicate Fails(v: StrainView)
  {
    (IsLow(v) || IsHigh(v)) && !(IsNumber(v.referenceValue) && IsNumber(v.rank))
  }

  /** The signed term a strain adds to the sum. */
  function Contribution(v: StrainView): real
  {
    if Fails(v) then 0.0
    else if IsLow(v) then -(AsReal(v.referenceValue) * AsReal(v.rank))
    else if IsHigh(v) then AsReal(v.referenceValue) * AsReal(v.rank)
    else 0.0
  }

  /** The signed sum over a list of strains, accumulated left to right. */
  function Total(vs: seq<StrainView>): real
  {
    if |vs| == 0 then 0.0 else Total(vs[..|vs| - 1]) + Contribution(vs[|vs| - 1])
  }

  predicate AnyFails(vs: seq<StrainView>)
  {
    exists v :: v in vs && Fails(v)
  }

  /** The weight of a variant carried by the strains `vs`, or the exception computing it raises. */
  function Weight(vs: seq<StrainView>): Result<real>
  {
    if AnyFails(vs) then Err(TypeError)
    else if |vs| == 0 then Err(ZeroDivisionError)
    else Ok(Total(vs) / (|vs| as real))
  }

  function Views(strains: seq<ProcessedStrain>): (r: seq<StrainView>)
    reads strains
    ensures |r| == |strains|
    ensures forall k :: 0 <= k < |strains| ==>
              r[k] == StrainView(strains[k].kind, strains[k].referenceValue, strains[k].rank)
  {
    seq(|strains|, k requires 0 <= k < |strains| reads strains =>
          StrainView(strains[k].kind, strains[k].referenceValue, strains[k].rank))
  }

  /** The sum and the failure test over one more strain. */
  lemma PrefixStep(vs: seq<StrainView>, i: nat)
    requires i < |vs|
    ensures Total(vs[..i + 1]) == Total(vs[..i]) + Contribution(vs[i])
    ensures AnyFails(vs[..i + 1]) <==> AnyFails(vs[..i]) || Fails(vs[i])
  {
    assert vs[..i + 1][..i] == vs[..i];
    assert forall v :: v in vs[..i + 1] <==> v in vs[..i] || v == vs[i];
  }

  /** `compute_weight`: the loop over the carrier strains, then the division by their number. */
  method ComputeWeight(strains: seq<ProcessedStrain>) returns (r: Result<real>)
    ensures r == Weight(Views(strains))
  {
    ghost var vs := Views(strains);
    var sum := 0.0;
    var i := 0;
    while i < |strains|
      invariant 0 <= i <= |strains|
      invariant !AnyFails(vs[..i])
      invariant sum == Total(vs[..i])
    {
      var s := strains[i];
      var v := StrainView(s.kind, s.referenceValue, s.rank);
      assert v == vs[i];
      PrefixStep(vs, i);
      if IsLow(v) || IsHigh(v) {
        if !(IsNumber(v.referenceValue) && IsNumber(v.rank)) {
          assert vs[i] in vs && Fails(vs[i]);
          return Err(TypeError);
        }
        var product := AsReal(v.referenceValue) * AsReal(v.rank);
        assert Contribution(v) == (if IsLow(v) then -product else product);
        sum := sum + (if IsLow(v) then -product else product);
      }
      i := i + 1;
    }
    assert vs[..i] == vs;
    if i == 0 {
      return Err(ZeroDivisionError);
    }
    r := Ok(sum / (i as real));
  }

  lemma {:induction false} TotalRemove(vs: seq<StrainView>, k: nat)
    requires k < |vs|
    ensures Total(vs) == Total(vs[..k] + vs[k + 1..]) + Contribution(vs[k])
  {
    var n := |vs|;
    if k < n - 1 {
      var init := vs[..n - 1];
      TotalRemove(init, k);
      var rest := vs[..k] + vs[k + 1..];
      assert rest[..|rest| - 1] == init[..k] + init[k + 1..];
      assert rest[|rest| - 1] == vs[n - 1];
    } else {
      assert vs[..k] + vs[k + 1..] == vs[..n - 1];
    }
  }

  /** The signed sum does not depend on the order of the strains. */
  lemma {:induction false} TotalPermutation(vs: seq<StrainView>, ws: seq<StrainView>)
    requires multiset(vs) == multiset(ws)
    ensures Total(vs) == Total(ws)
  {
    if |vs| == 0 {
      assert |ws| == |multiset(ws)| == 0;
    } else {
      var n := |vs|;
      var x := vs[n - 1];
      assert x in multiset(ws);
      var k :| 0 <= k < |ws| && ws[k] == x;
      var rest := ws[..k] + ws[k + 1..];
      assert ws == ws[..k] + [x] + ws[k + 1..];
      assert vs == vs[..n - 1] + [x];
      assert multiset(vs[..n - 1]) == multiset(vs) - multiset{x};
      assert multiset(rest) == multiset(ws) - multiset{x} by {
        assert multiset(ws) == multiset(ws[..k]) + multiset{x} + multiset(ws[k + 1..]);
      }
      TotalPermutation(vs[..n - 1], rest);
      TotalRemove(ws, k);
    }
  }

  /** Permuting the carrier strains does not change the weight, nor whether it raises. */
  lemma WeightPermutation(vs: seq<StrainView>, ws: seq<StrainView>)
    requires multiset(vs) == multiset(ws)
    ensures Weight(vs) == Weight(ws)
  {
    assert forall v :: v in vs <==> v in multiset(ws);
    assert |vs| == |multiset(vs)| == |ws|;
    TotalPermutation(vs, ws);
  }

  /** Strains that are neither LOW nor HIGH add nothing: such a list weighs 0. */
  lemma {:induction false} NeutralTotal(vs: seq<StrainView>)
    requires forall v :: v in vs ==> !IsLow(v) && !IsHigh(v)
    ensures Total(vs) == 0.0
  {
    if |vs| > 0 {
      assert vs[|vs| - 1] in vs;
      NeutralTotal(vs[..|vs| - 1]);
    }
  }

  lemma NeutralWeight(vs: seq<StrainView>)
    requires |vs| > 0
    requires forall v :: v in vs ==> !IsLow(v) && !IsHigh(v)
    ensures Weight(vs) == Ok(0.0)
  {
    NeutralTotal(vs);
  }

  /** Adding a neutral carrier leaves the sum alone but divides it by one more strain. */
  lemma NeutralCarrierDilutes(vs: seq<StrainView>, n: StrainView)
    requires !IsLow(n) && !IsHigh(n) && Weight(vs).Ok?
    ensures Weight(vs + [n]) == Ok(Total(vs) / ((|vs| + 1) as real))
  {
    var w := vs + [n];
    assert w[..|w| - 1] == vs;
    assert Total(w) == Total(vs) by {
      assert Contribution(w[|w| - 1]) == 0.0;
    }
    assert !AnyFails(w) by {
      forall v | v in w ensures !Fails(v) {
        if v != n { assert v in vs; }
      }
    }
  }

  /** Three strains ranked 1, 2, 3 with reference values 1.0, 5.0, 9.0, the first LOW and the last HIGH. */
  lemma WorkedExamples()
    ensures Weight([StrainView(StrValue("HIGH"), FloatValue(9.0), IntValue(3))]) == Ok(27.0)
    ensures Weight([StrainView(StrValue("LOW"), FloatValue(1.0), IntValue(1)),
                    StrainView(StrValue("HIGH"), FloatValue(9.0), IntValue(3))]) == Ok(13.0)
  {
    var low := StrainView(StrValue("LOW"), FloatValue(1.0), IntValue(1));
    var high := StrainView(StrValue("HIGH"), FloatValue(9.0), IntValue(3));
    assert [low, high][..1] == [low];
    assert !AnyFails([low, high]) by {
      forall v | v in [low, high] ensures !Fails(v) { }
    }
  }

  // ---------------------------------------------------------------- mutations

  class ProcessedMutation {
    var phenotypeName: string
    var methodName: string
    var age: int
    var name: string              // the variant's mutation_id
    var numberLine: Value
    var rank: Value
    var weight: Value
    var ratio: Value
    var fdr: Value

    constructor (phenotypeName: string, methodName: string, age: int, name: string)
      ensures this.phenotypeName == phenotypeName && this.methodName == methodName
      ensures this.age == age && this.name == name
      ensures numberLine == NoneValue && rank == NoneValue && weight == NoneValue
      ensures ratio == NoneValue && fdr == NoneValue
    {
      this.phenotypeName := phenotypeName;
      this.methodName := methodName;
      this.age := age;
      this.name := name;
      numberLine, rank, weight, ratio, fdr := NoneValue, NoneValue, NoneValue, NoneValue, NoneValue;
    }

    /** `set_number_line`: stores its argument; no other field changes. */
    method SetNumberLine(value: Value)
      modifies this`numberLine
      ensures numberLine == value
    {
      numberLine := value;
    }

    /** `set_ratio`: stores its argument; no other field changes. */
    method SetRatio(value: Value)
      modifies this`ratio
      ensures ratio == value
    {
      ratio := value;
    }

    /** `set_weight`: stores a float; any other argument leaves the record unchanged. */
    method SetWeight(value: Value)
      modifies this`weight
      ensures weight == (if value.FloatValue? then value else old(weight))
    {
      if value.FloatValue? {
        weight := value;
      }
    }

    /** `set_rank`: stores an int and answers True; anything else answers False and changes nothing. */
    method SetRank(value: Value) returns (stored: bool)
      modifies this`rank
      ensures stored <==> value.IntValue?
      ensures rank == (if stored then value else old(rank))
    {
      if !value.IntValue? {
        return false;
      }
      rank := value;
      return true;
    }
  }

  // -------------------------------------------------------------------- data

  class ProcessedPhenotypeData {
    var phenotypeName: string
    var age: int
    var individualName: string
    var originalValue: Value
    var normalizedValue: Value
    var normalizedCenteredValue: Value
    var phenotypeDataId: Option<int>

    constructor (phenotypeName: string, age: int, individualName: string)
      ensures this.phenotypeName == phenotypeName && this.age == age
      ensures this.individualName == individualName
      ensures normalizedCenteredValue == NoneValue && phenotypeDataId == None
    {
      this.phenotypeName := phenotypeName;
      this.age := age;
      this.individualName := individualName;
      originalValue, normalizedValue, normalizedCenteredValue := NoneValue, NoneValue, NoneValue;
      phenotypeDataId := None;
    }

    /**
     * `set_normalized_centered_value`: a float is stored; the text
     * 'set_to_none' clears the field; both answer True.  Anything else
     * answers False and leaves the field as it was.
     */
    method SetNormalizedCenteredValue(value: Value) returns (accepted: bool)
      modifies this`normalizedCenteredValue
      ensures accepted <==> value.FloatValue? || value == StrValue("set_to_none")
      ensures normalizedCenteredValue ==
                (if value.FloatValue? then value
                 else if value == StrValue("set_to_none") then NoneValue
                 else old(normalizedCenteredValue))
    {
      if !value.FloatValue? {
        if value == StrValue("set_to_none") {
          normalizedCenteredValue := NoneValue;
          return true;
        }
        return false;
      }
      normalizedCenteredValue := value;
      return true;
    }
  }

  // --------------------------------------------------------------- phenotype

  /** The exception class the type checks raise. */
  const PHENOTYPE_EXCEPTION: string := "ProcessedPhenotypeException"

  class ProcessedPhenotype {
    var name: string
    var age: int
    var methodName: string
    var processedDataList: seq<ProcessedPhenotypeData>
    var processedStrainList: seq<ProcessedStrain>
    var processedMutationList: seq<ProcessedMutation>
    var analyzedPhenotypeList: seq<AnalyzedPhenotype>

    constructor (name: string, age: int, methodName: string)
      ensures this.name == name && this.age == age && this.methodName == methodName
      ensures processedDataList == [] && processedStrainList == []
      ensures processedMutationList == [] && analyzedPhenotypeList == []
    {
      this.name := name;
      this.age := age;
      this.methodName := methodName;
      processedDataList, processedStrainList := [], [];
      processedMutationList, analyzedPhenotypeList := [], [];
    }

    /**
     * `add_gene`: a non-AnalyzedGene raises the phenotype exception; an
     * AnalyzedGene reaches `self.analyzed_gene_list`, which this class never
     * declares.  No call succeeds and nothing changes.
     */
    method AddGene(arg: Arg<AnalyzedGene>) returns (outcome: Outcome)
      ensures outcome.Failed?
      ensures arg.Instance? <==> outcome == Failed(AttributeError("analyzed_gene_list"))
      ensures !arg.Instance? <==> outcome == Failed(Raised(PHENOTYPE_EXCEPTION))
    {
      if !arg.Instance? {
        return Failed(Raised(PHENOTYPE_EXCEPTION));
      }
      return Failed(AttributeError("analyzed_gene_list"));
    }

    /**
     * `sort_processed_strain`: the strains ordered by reference value, ties
     * in list order; `order[k]` is the position strain k came from.  The
     * stored list is not modified.
     */
    method SortProcessedStrain() returns (r: seq<ProcessedStrain>, ghost order: seq<nat>)
      ensures |r| == |processedStrainList| && multiset(r) == multiset(processedStrainList)
      ensures forall a, b :: 0 <= a < b < |r| ==> KeyLe(r[a].referenceValue, r[b].referenceValue)
      ensures |order| == |r|
      ensures forall k :: 0 <= k < |r| ==> order[k] < |r| && r[k] == processedStrainList[order[k]]
      ensures forall a, b :: 0 <= a < b < |r| && KeyLe(r[b].referenceValue, r[a].referenceValue) ==>
                order[a] < order[b]
    {
      var list := processedStrainList;
      var keys := seq(|list|, k requires 0 <= k < |list| reads list => list[k].referenceValue);
      var sorted := StableSort(keys, list);
      r, order := sorted.0, sorted.1;
    }

    /**
     * `sort_processed_mutation`: the variants ordered by weight, ties in list
     * order, without modifying the stored list.
     */
    method SortProcessedMutation() returns (r: seq<ProcessedMutation>, ghost order: seq<nat>)
      ensures |r| == |processedMutationList| && multiset(r) == multiset(processedMutationList)
      ensures forall a, b :: 0 <= a < b < |r| ==> KeyLe(r[a].weight, r[b].weight)
      ensures |order| == |r|
      ensures forall k :: 0 <= k < |r| ==> order[k] < |r| && r[k] == processedMutationList[order[k]]
      ensures forall a, b :: 0 <= a < b < |r| && KeyLe(r[b].weight, r[a].weight) ==> order[a] < order[b]
    {
      var list := processedMutationList;
      var keys := seq(|list|, k requires 0 <= k < |list| reads list => list[k].weight);
      var sorted := StableSort(keys, list);
      r, order := sorted.0, sorted.1;
    }

    /** `add_mutation`: appends a ProcessedMutation; anything else raises, all lists unchanged. */
    method AddMutation(arg: Arg<ProcessedMutation>) returns (outcome: Outcome)
      modifies this`processedMutationList
      ensures arg.Instance? ==>
                outcome == Done && processedMutationList == old(processedMutationList) + [arg.obj]
      ensures !arg.Instance? ==>
                outcome == Failed(Raised(PHENOTYPE_EXCEPTION)) && processedMutationList == old(processedMutationList)
    {
      if !arg.Instance? {
        return Failed(Raised(PHENOTYPE_EXCEPTION));
      }
      processedMutationList := processedMutationList + [arg.obj];
      return Done;
    }

    /** `add_processed_data`: appends a ProcessedPhenotypeData; anything else raises. */
    method AddProcessedData(arg: Arg<ProcessedPhenotypeData>) returns (outcome: Outcome)
      modifies this`processedDataList
      ensures arg.Instance? ==>
                outcome == Done && processedDataList == old(processedDataList) + [arg.obj]
      ensures !arg.Instance? ==>
                outcome == Failed(Raised(PHENOTYPE_EXCEPTION)) && processedDataList == old(processedDataList)
    {
      if !arg.Instance? {
        return Failed(Raised(PHENOTYPE_EXCEPTION));
      }
      processedDataList := processedDataList + [arg.obj];
      return Done;
    }

    /** `add_processed_strain`: appends a ProcessedStrain; anything else raises. */
    method AddProcessedStrain(arg: Arg<ProcessedStrain>) returns (outcome: Outcome)
      modifies this`processedStrainList
      ensures arg.Instance? ==>
                outcome == Done && processedStrainList == old(processedStrainList) + [arg.obj]
      ensures !arg.Instance? ==>
                outcome == Failed(Raised(PHENOTYPE_EXCEPTION)) && processedStrainList == old(processedStrainList)
    {
      if !arg.Instance? {
        return Failed(Raised(PHENOTYPE_EXCEPTION));
      }
      processedStrainList := processedStrainList + [arg.obj];
      return Done;
    }

    /** `add_analyzed_phenotype`: appends any argument but None. */
    method AddAnalyzedPhenotype(arg: Option<AnalyzedPhenotype>)
      modifies this`analyzedPhenotypeList
      ensures analyzedPhenotypeList ==
                (if arg.Some? then old(analyzedPhenotypeList) + [arg.value] else old(analyzedPhenotypeList))
    {
      if arg.Some? {
        analyzedPhenotypeList := analyzedPhenotypeList + [arg.value];
      }
    }
  }
}
