// The phenotyped population: a strain (a DGRP line, keyed by its number)
// owns its individuals, an individual (keyed by its name) owns the raw
// phenotype measurements taken on it, and a measurement points to the
// normalised values derived from it.

module Population {
  import opened Runtime
  import opened Text
  import opened Processed

  class PhenotypeData {
    var id: int                   // auto-incremented key
    var phenotypeName: Option<string>  // a String column: None when null
    var value: Option<real>       // a Float column: None when missing
    var age: Value                // an Integer column, concatenated as text by `__str__`
    var individualName: Option<string> // a String column: None when null
    var processedData: seq<ProcessedPhenotypeData>

    constructor (id: int, phenotypeName: Option<string>, value: Option<real>, age: Value, individualName: Option<string>)
      ensures this.id == id && this.phenotypeName == phenotypeName && this.value == value
      ensures this.age == age && this.individualName == individualName && processedData == []
    {
      this.id := id;
      this.phenotypeName := phenotypeName;
      this.value := value;
      this.age := age;
      this.individualName := individualName;
      processedData := [];
    }

    /** `add_processed_data`: appends a ProcessedPhenotypeData; anything else, None included, raises. */
    method AddProcessedData(arg: Arg<ProcessedPhenotypeData>) returns (outcome: Outcome)
      modifies this`processedData
      ensures arg.Instance? ==> outcome == Done && processedData == old(processedData) + [arg.obj]
      ensures !arg.Instance? ==>
                outcome == Failed(Raised("PhenotypeDataException")) && processedData == old(processedData)
    {
      if !arg.Instance? {
        return Failed(Raised("PhenotypeDataException"));
      }
      processedData := processedData + [arg.obj];
      return Done;
    }

    /** The last field of `__str__`: `str(value)`, or "NaN" for a missing value. */
    function ValueText(formatFloat: real -> string): string
      reads this
    {
      if value.Some? then formatFloat(value.value) else "NaN"
    }

    /**
     * `__str__`: individual, age, phenotype and value, tab-separated.  The
     * three first fields are concatenated as strings, so a null individual
     * or phenotype name, or an age that is not itself a string, raises
     * TypeError.  `formatFloat` stands for `str` on floats.
     */
    function ToString(formatFloat: real -> string): (r: Result<string>)
      reads this
      ensures r.Ok? <==> individualName.Some? && age.StrValue? && phenotypeName.Some?
      ensures !r.Ok? ==> r == Err(TypeError)
    {
      if individualName.None? || !age.StrValue? || phenotypeName.None? then Err(TypeError)
      else if value.Some? then
        Ok(individualName.value + "\t" + age.s + "\t" + phenotypeName.value + "\t" + formatFloat(value.value))
      else
        Ok(individualName.value + "\t" + age.s + "\t" + phenotypeName.value + "\tNaN")
    }

    /** With tab-free fields, splitting the text on tabs gives the four fields back. */
    lemma ToStringFields(formatFloat: real -> string)
      requires individualName.Some? && age.StrValue? && phenotypeName.Some?
      requires '\t' !in individualName.value && '\t' !in age.s && '\t' !in phenotypeName.value
      requires '\t' !in ValueText(formatFloat)
      ensures Split(ToString(formatFloat).value, '\t')
              == [individualName.value, age.s, phenotypeName.value, ValueText(formatFloat)]
    {
      var fields := [individualName.value, age.s, phenotypeName.value, ValueText(formatFloat)];
      JoinAppend([individualName.value], "\t", age.s);
      assert [individualName.value] + [age.s] == fields[..2];
      JoinAppend(fields[..2], "\t", phenotypeName.value);
      assert fields[..2] + [phenotypeName.value] == fields[..3];
      JoinAppend(fields[..3], "\t", ValueText(formatFloat));
      assert fields[..3] + [ValueText(formatFloat)] == fields;
      var prefix := individualName.value + "\t" + age.s + "\t" + phenotypeName.value;
      assert prefix + "\tNaN" == prefix + "\t" + "NaN";
      assert ToString(formatFloat).value == Join(fields, "\t");
      SplitJoin(fields, '\t');
    }
  }

  class Individual {
    var name: string              // primary key
    var id: int
    var date: string
    var age: int
    var sex: string
    var user: string
    var dataList: seq<PhenotypeData>
    var strainNumber: string      // references strain.number

    constructor (name: string, strainNumber: string)
      ensures this.name == name && this.strainNumber == strainNumber && dataList == []
    {
      this.name := name;
      this.strainNumber := strainNumber;
      id, age := 0, 0;
      date, sex, user := "", "", "";
      dataList := [];
    }

    /** `add_data`: appends its argument, with no type check. */
    method AddData(data: PhenotypeData)
      modifies this`dataList
      ensures dataList == old(dataList) + [data]
    {
      dataList := dataList + [data];
    }
  }

  class Strain {
    var control: bool
    var number: string            // primary key
    var listIndividual: seq<Individual>
    var processedStrainList: seq<ProcessedStrain>

    constructor (number: string, control: bool)
      ensures this.number == number && this.control == control
      ensures listIndividual == [] && processedStrainList == []
    {
      this.number := number;
      this.control := control;
      listIndividual, processedStrainList := [], [];
    }

    /** `add_processed_strain`: appends unconditionally. */
    method AddProcessedStrain(processedStrain: ProcessedStrain)
      modifies this`processedStrainList
      ensures processedStrainList == old(processedStrainList) + [processedStrain]
    {
      processedStrainList := processedStrainList + [processedStrain];
    }

    /** `add_individual`: appends an Individual; any other argument is ignored. */
    method AddIndividual(arg: Arg<Individual>)
      modifies this`listIndividual
      ensures listIndividual == (if arg.Instance? then old(listIndividual) + [arg.obj] else old(listIndividual))
    {
      if arg.Instance? {
        listIndividual := listIndividual + [arg.obj];
      }
    }

    /** `__str__`: the strain number. */
    function ToString(): (r: string)
      reads this
      ensures r == number
    {
      number
    }

    /**
     * `__eq__`: strains are equal when their numbers are.  Comparing with
     * None, or with an object without a `number`, raises AttributeError.
     * Every object that is not a Strain is taken to have no `number`: a
     * foreign object carrying such an attribute is not modelled.
     */
    function Equals(other: Arg<Strain>): (r: Result<bool>)
      reads this, if other.Instance? then {other.obj} else {}
      ensures other.Instance? <==> r.Ok?
      ensures other.Instance? ==> (r.value <==> ToString() == other.obj.ToString())
      ensures !other.Instance? ==> r == Err(AttributeError("number"))
    {
      if other.Instance? then Ok(number == other.obj.number) else Err(AttributeError("number"))
    }
  }
}
