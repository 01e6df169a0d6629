// A variant of the DGRP catalogue.  One table holds every variant; the
// `type_mutation` column selects the mapped subclass (SNP, INS, DEL, MNP),
// and each subclass prints the same five-line summary under its own tag.
// Carrier lines go through the `mutation_in_line` association table, whose
// key is the (mutation id, line id) pair.

module Mutations {
  import opened Runtime
  import opened Text
  import opened Constants
  import opened Schema

  /** The class a `type_mutation` value maps a row to. */
  datatype MappedClass = BaseMutation | Variant(kind: MutationKind)

  /** The polymorphic identity of a mapped class. */
  function Identity(c: MappedClass): (r: string)
    ensures ClassFor(r) == Some(c)
  {
    match c
    case BaseMutation => "mutation"
    case Variant(k) => Tag(k)
  }

  /** The class a discriminator value selects; other values have no mapped class. */
  function ClassFor(discriminator: string): (r: Option<MappedClass>)
    ensures r == Some(BaseMutation) <==> discriminator == "mutation"
    ensures r.Some? && r.value.Variant? <==> discriminator in DGRP_LIST_MUTATION
    ensures r.Some? && r.value.Variant? ==> Tag(r.value.kind) == discriminator
  {
    if discriminator == "mutation" then Some(BaseMutation)
    else match KindOfTag(discriminator)
      case Some(k) => Some(Variant(k))
      case None => None
  }

  class Mutation {
    var mutationId: string        // primary key
    var position: Option<string>  // every column but the key is nullable
    var chromosom: Option<string>
    var refCount: Option<int>
    var altCount: Option<int>
    var refAll: string
    var altAll: string
    var typeMutation: string      // the discriminator
    var altLineList: seq<Line>
    var mutationEffectList: seq<MutationEffect>

    constructor (mutationId: string, typeMutation: string)
      ensures this.mutationId == mutationId && this.typeMutation == typeMutation
      ensures position == None && chromosom == None && refCount == None && altCount == None
      ensures altLineList == [] && mutationEffectList == []
    {
      this.mutationId := mutationId;
      this.typeMutation := typeMutation;
      position, chromosom, refCount, altCount := None, None, None, None;
      refAll, altAll := "", "";
      altLineList, mutationEffectList := [], [];
    }

    /**
     * Each carrier line at most once: the `mutation_in_line` rows a flush
     * writes for this variant then have distinct keys.
     */
    ghost predicate CarriersDistinct()
      reads this
    {
      forall a, b :: 0 <= a < b < |altLineList| ==> altLineList[a].lineId != altLineList[b].lineId
    }

    /** `add_mutation_effect`: appends one effect, duplicates included. */
    method AddMutationEffect(effect: MutationEffect)
      modifies this`mutationEffectList
      ensures mutationEffectList == old(mutationEffectList) + [effect]
    {
      mutationEffectList := mutationEffectList + [effect];
    }

    /**
     * `add_alt_line`: appends a line that is not None; None changes
     * nothing.  A line whose id is already a carrier breaks the
     * association key; a new one keeps it.
     */
    method AddAltLine(line: Option<Line>)
      modifies this`altLineList
      ensures altLineList == (if line.Some? then old(altLineList) + [line.value] else old(altLineList))
      ensures line.Some? && old(CarriersDistinct()) ==>
                (CarriersDistinct() <==> forall l :: l in old(altLineList) ==> l.lineId != line.value.lineId)
    {
      if line.Some? {
        ghost var before := altLineList;
        altLineList := altLineList + [line.value];
        if exists l :: l in before && l.lineId == line.value.lineId {
          var l :| l in before && l.lineId == line.value.lineId;
          var a :| 0 <= a < |before| && before[a] == l;
          assert altLineList[a].lineId == altLineList[|before|].lineId;
        }
      }
    }
  }

  // ------------------------------------------------------------- `__str__`

  /**
   * The `__str__` of a SNP, INS, DEL or MNP: the kind's tag, then the same
   * text for every kind.
   */
  function Describe(k: MutationKind, mutationId: string, position: string, chromosom: string,
                    refCount: Option<int>, altCount: Option<int>): string
  {
    Tag(k) + Tail(mutationId, position, chromosom, refCount, altCount)
  }

  /**
   * `__str__` on a row as stored: a null position or chromosome makes the
   * concatenation raise TypeError, while a null count is printed as "None".
   */
  function ToString(k: MutationKind, mutationId: string, position: Option<string>, chromosom: Option<string>,
                    refCount: Option<int>, altCount: Option<int>): (r: Result<string>)
    ensures r.Ok? <==> position.Some? && chromosom.Some?
    ensures r.Err? ==> r.error == TypeError
    ensures r.Ok? ==> r.value == Describe(k, mutationId, position.value, chromosom.value, refCount, altCount)
    ensures r.Ok? ==> r.value[..3] == Tag(k)
  {
    if position.None? || chromosom.None? then Err(TypeError)
    else Ok(Tag(k) + Tail(mutationId, position.value, chromosom.value, refCount, altCount))
  }

  /** Everything after the tag. */
  function Tail(mutationId: string, position: string, chromosom: string, refCount: Option<int>, altCount: Option<int>): string
  {
    " : " + mutationId + "\nPosition : " + position + "\nChrom :  " + chromosom
      + "\nRef count : " + CountText(refCount) + "\nAlt count : " + CountText(altCount)
  }

  /** The lines of the summary, in order. */
  function SummaryLines(k: MutationKind, mutationId: string, position: string, chromosom: string,
                        refCount: Option<int>, altCount: Option<int>): seq<string>
  {
    [Tag(k) + " : " + mutationId, "Position : " + position, "Chrom :  " + chromosom,
     "Ref count : " + CountText(refCount), "Alt count : " + CountText(altCount)]
  }

  /** The summaries of two kinds differ only in their three-letter tag. */
  lemma KindsDifferOnlyInTag(k1: MutationKind, k2: MutationKind, mutationId: string, position: string,
                             chromosom: string, refCount: Option<int>, altCount: Option<int>)
    ensures var d1 := Describe(k1, mutationId, position, chromosom, refCount, altCount);
            var d2 := Describe(k2, mutationId, position, chromosom, refCount, altCount);
            |d1| == |d2| && d1[..3] == Tag(k1) && d2[..3] == Tag(k2) && d1[3..] == d2[3..]
  {
    var t := Tail(mutationId, position, chromosom, refCount, altCount);
    assert |Tag(k1)| == 3 && |Tag(k2)| == 3;
    assert (Tag(k1) + t)[3..] == t && (Tag(k2) + t)[3..] == t;
  }

  /** `str` on a nullable integer column: its digits, or "None". */
  function CountText(c: Option<int>): string
  {
    if c.Some? then IntToString(c.value) else "None"
  }

  lemma CountTextNoNewline(c: Option<int>)
    ensures '\n' !in CountText(c)
  {
    if c.Some? {
      var s := NatToString(if c.value < 0 then -c.value else c.value);
      assert forall j :: 0 <= j < |s| ==> IsDigit(s[j]);
    }
  }

  /** The summary, rebracketed as its five lines with a newline between each two. */
  lemma DescribeChain(k: MutationKind, mutationId: string, position: string, chromosom: string,
                      refCount: Option<int>, altCount: Option<int>)
    ensures var l := SummaryLines(k, mutationId, position, chromosom, refCount, altCount);
            Describe(k, mutationId, position, chromosom, refCount, altCount)
            == l[0] + "\n" + l[1] + "\n" + l[2] + "\n" + l[3] + "\n" + l[4]
  {
    var r, a := CountText(refCount), CountText(altCount);
    var l := SummaryLines(k, mutationId, position, chromosom, refCount, altCount);
    var t := Tag(k);
    var p0 := " : " + mutationId;
    var p1 := p0 + "\nPosition : " + position;
    var p2 := p1 + "\nChrom :  " + chromosom;
    var p3 := p2 + "\nRef count : " + r;
    var p4 := p3 + "\nAlt count : " + a;
    assert Describe(k, mutationId, position, chromosom, refCount, altCount) == t + p4;
    var q0 := t + p0;
    assert q0 == l[0];
    Markers();
    LineAfter(t, p0, "\nPosition : ", "Position : ", position);
    LineAfter(t, p1, "\nChrom :  ", "Chrom :  ", chromosom);
    LineAfter(t, p2, "\nRef count : ", "Ref count : ", r);
    LineAfter(t, p3, "\nAlt count : ", "Alt count : ", a);
  }

  /** The four labels of the summary each start a new line. */
  lemma Markers()
    ensures "\nPosition : " == "\n" + "Position : " && "\nChrom :  " == "\n" + "Chrom :  "
    ensures "\nRef count : " == "\n" + "Ref count : " && "\nAlt count : " == "\n" + "Alt count : "
  {
  }

  /** Appending a label that starts with a newline, and its value, after `t + p`. */
  lemma LineAfter(t: string, p: string, marker: string, heading: string, value: string)
    requires marker == "\n" + heading
    ensures t + (p + marker + value) == t + p + "\n" + (heading + value)
  {
    assert t + (p + marker + value) == t + p + "\n" + heading + value;
  }

  /** Five lines joined by "\n". */
  lemma JoinFive(l0: string, l1: string, l2: string, l3: string, l4: string)
    ensures Join([l0, l1, l2, l3, l4], "\n") == l0 + "\n" + l1 + "\n" + l2 + "\n" + l3 + "\n" + l4
  {
    assert Join([l0], "\n") == l0;
    JoinAppend([l0], "\n", l1);
    assert [l0] + [l1] == [l0, l1];
    JoinAppend([l0, l1], "\n", l2);
    assert [l0, l1] + [l2] == [l0, l1, l2];
    JoinAppend([l0, l1, l2], "\n", l3);
    assert [l0, l1, l2] + [l3] == [l0, l1, l2, l3];
    JoinAppend([l0, l1, l2, l3], "\n", l4);
    assert [l0, l1, l2, l3] + [l4] == [l0, l1, l2, l3, l4];
  }

  /** The summary is its five lines joined by "\n": no trailing newline. */
  lemma DescribeJoin(k: MutationKind, mutationId: string, position: string, chromosom: string,
                     refCount: Option<int>, altCount: Option<int>)
    ensures Describe(k, mutationId, position, chromosom, refCount, altCount)
            == Join(SummaryLines(k, mutationId, position, chromosom, refCount, altCount), "\n")
  {
    var l := SummaryLines(k, mutationId, position, chromosom, refCount, altCount);
    DescribeChain(k, mutationId, position, chromosom, refCount, altCount);
    JoinFive(l[0], l[1], l[2], l[3], l[4]);
    assert l == [l[0], l[1], l[2], l[3], l[4]];
  }

  /** No line of the summary holds a newline when the id, position and chromosome hold none. */
  lemma SummaryLinesFree(k: MutationKind, mutationId: string, position: string, chromosom: string,
                         refCount: Option<int>, altCount: Option<int>)
    requires '\n' !in mutationId && '\n' !in position && '\n' !in chromosom
    ensures Free(SummaryLines(k, mutationId, position, chromosom, refCount, altCount), '\n')
  {
    var l := SummaryLines(k, mutationId, position, chromosom, refCount, altCount);
    CountTextNoNewline(refCount);
    CountTextNoNewline(altCount);
    assert '\n' !in Tag(k) + " : ";
    assert '\n' !in "Position : " && '\n' !in "Chrom :  ";
    assert '\n' !in "Ref count : " && '\n' !in "Alt count : ";
    assert '\n' !in l[0] && '\n' !in l[1] && '\n' !in l[2] && '\n' !in l[3] && '\n' !in l[4];
  }

  /**
   * Splitting the summary on "\n" gives the five lines back whenever the id,
   * position and chromosome have no "\n" of their own.
   */
  lemma DescribeLines(k: MutationKind, mutationId: string, position: string, chromosom: string,
                      refCount: Option<int>, altCount: Option<int>)
    requires '\n' !in mutationId && '\n' !in position && '\n' !in chromosom
    ensures Split(Describe(k, mutationId, position, chromosom, refCount, altCount), '\n')
            == SummaryLines(k, mutationId, position, chromosom, refCount, altCount)
  {
    SummaryLinesFree(k, mutationId, position, chromosom, refCount, altCount);
    DescribeJoin(k, mutationId, position, chromosom, refCount, altCount);
    SplitJoin(SummaryLines(k, mutationId, position, chromosom, refCount, altCount), '\n');
  }
}
