/** `process_smiles`, which turns the ranked isomers into the response the
    front end reads, and `generate_simple_2d_structure`, which only draws the
    input molecule. RDKit's answers, the exceptions it raises and the time
    spent are inputs. */
module SmilesProcessing {
  import opened Options
  import opened Decimal
  import opened IsomerRanking

  // ----- process_smiles -----

  /** One isomer as the response lists it. */
  datatype IsomerView = IsomerView(rank: nat, smiles: string, energy: real, stability: string,
                                   visualization: string, structure2d: Option<string>)

  /** The response: the isomers and a summary, or an error message; both
      carry the time spent. */
  datatype SmilesResponse =
    | Success(inputSmiles: string, totalIsomers: nat, processingTime: real,
              isomers: seq<IsomerView>, mostStable: Option<IsomerView>)
    | Failure(error: string, processingTime: real)

  const NoIsomersError: string := "Could not generate isomers from the provided SMILES string"

  const MostStableLabel: string := "Most Stable"

  /** The stability label of a rank: "Most Stable" for rank 1, "Rank k" otherwise. */
  function StabilityLabel(rank: nat): string {
    if rank == 1 then MostStableLabel else "Rank " + NatToString(rank)
  }

  /** The label names the most stable isomer exactly for rank 1, and every
      other rank can be read back from its label. */
  lemma StabilityLabelMeaning(rank: nat)
    ensures StabilityLabel(rank) == MostStableLabel <==> rank == 1
    ensures rank != 1 ==> |StabilityLabel(rank)| > 5 && StabilityLabel(rank)[..5] == "Rank "
                          && AllDigits(StabilityLabel(rank)[5..])
                          && ParseDecimal(StabilityLabel(rank)[5..]) == rank
  {
    if rank != 1 {
      var text := StabilityLabel(rank);
      assert text[0] == 'R' != MostStableLabel[0];
      assert text[5..] == NatToString(rank);
      ParseNatToString(rank);
    }
  }

  /** Different ranks get different labels. */
  lemma StabilityLabelInjective(a: nat, b: nat)
    requires StabilityLabel(a) == StabilityLabel(b)
    ensures a == b
  {
    StabilityLabelMeaning(a);
    StabilityLabelMeaning(b);
  }

  function ViewOf(r: RankedIsomer): IsomerView {
    IsomerView(r.rank, r.candidate.smiles, r.candidate.energy, StabilityLabel(r.rank),
               r.candidate.visualization, r.candidate.structure2d)
  }

  /** The loop that builds the response list: one view per ranked isomer,
      in the same order. */
  method ShapeIsomers(ranked: seq<RankedIsomer>) returns (views: seq<IsomerView>)
    ensures |views| == |ranked|
    ensures forall i :: 0 <= i < |ranked| ==> views[i] == ViewOf(ranked[i])
  {
    views := [];
    for i := 0 to |ranked|
      invariant |views| == i
      invariant forall k :: 0 <= k < i ==> views[k] == ViewOf(ranked[k])
    {
      var isomer := ranked[i];
      views := views + [IsomerView(isomer.rank, isomer.candidate.smiles, isomer.candidate.energy,
                                   StabilityLabel(isomer.rank), isomer.candidate.visualization,
                                   isomer.candidate.structure2d)];
    }
  }

  function Views(ranked: seq<RankedIsomer>): (views: seq<IsomerView>)
    ensures |views| == |ranked|
  {
    seq(|ranked|, i requires 0 <= i < |ranked| => ViewOf(ranked[i]))
  }

  /** The success record built from a non-empty or empty list of views. */
  function Summary(smiles: string, views: seq<IsomerView>, elapsed: real): SmilesResponse {
    Success(smiles, |views|, elapsed, views, if views != [] then Some(views[0]) else None)
  }

  /** The response for a SMILES text, given what RDKit reports (`chem`),
      the exception the ranking raised if any, and the time spent. */
  function Response(smiles: string, chem: Chemistry, raised: Option<string>, elapsed: real): SmilesResponse {
    match raised
    case Some(e) => Failure(e, elapsed)
    case None =>
      match Ranking(chem)
      case None => Failure(NoIsomersError, elapsed)
      case Some(ranked) =>
        if ranked == [] then Failure(NoIsomersError, elapsed) else Summary(smiles, Views(ranked), elapsed)
  }

  method ProcessSmiles(smiles: string, chem: Chemistry, raised: Option<string>, elapsed: real)
    returns (response: SmilesResponse)
    ensures response == Response(smiles, chem, raised, elapsed)
  {
    if raised.Some? {
      return Failure(raised.value, elapsed);
    }
    var ranked := GenerateAndRankIsomers(chem);
    if ranked.None? || ranked.value == [] {
      return Failure(NoIsomersError, elapsed);
    }
    var views := ShapeIsomers(ranked.value);
    assert views == Views(ranked.value);
    response := Success(smiles, |views|, elapsed, views, if views != [] then Some(views[0]) else None);
  }

  /** What the response promises: the exception's message when the ranking
      raised; the fixed message when no isomer could be ranked; otherwise the
      count of isomers, each listed with rank i + 1 and its label in
      non-decreasing order of energy, the first one as the most stable, and
      exactly one isomer labelled "Most Stable". */
  lemma ResponseProperties(smiles: string, chem: Chemistry, raised: Option<string>, elapsed: real)
    ensures var r := Response(smiles, chem, raised, elapsed);
            && r.processingTime == elapsed
            && (raised.Some? ==> r == Failure(raised.value, elapsed))
            && (raised.None? ==> (r.Failure? <==> Ranking(chem).None?))
            && (raised.None? && r.Failure? ==> r.error == NoIsomersError)
            && (r.Success? ==>
                  && r.inputSmiles == smiles
                  && r.totalIsomers == |r.isomers| >= 1
                  && r.mostStable == Some(r.isomers[0])
                  && r.isomers[0].stability == MostStableLabel
                  && (forall i :: 0 <= i < |r.isomers| ==>
                        r.isomers[i].rank == i + 1 && r.isomers[i].stability == StabilityLabel(i + 1))
                  && (forall i :: 0 < i < |r.isomers| ==> r.isomers[i].stability != MostStableLabel)
                  && (forall i, j :: 0 <= i < j < |r.isomers| ==> r.isomers[i].energy <= r.isomers[j].energy))
  {
    RankingProperties(chem);
    var r := Response(smiles, chem, raised, elapsed);
    if r.Success? {
      var ranked := Ranking(chem).value;
      var cs := Unranked(ranked);
      forall i | 0 <= i < |r.isomers| ensures r.isomers[i].rank == i + 1 && r.isomers[i].stability == StabilityLabel(i + 1) {
      }
      forall i | 0 < i < |r.isomers| ensures r.isomers[i].stability != MostStableLabel {
        StabilityLabelMeaning(i + 1);
      }
      forall i, j | 0 <= i < j < |r.isomers| ensures r.isomers[i].energy <= r.isomers[j].energy {
        assert r.isomers[i].energy == cs[i].energy && r.isomers[j].energy == cs[j].energy;
      }
    }
  }

  // ----- generate_simple_2d_structure -----

  /** RDKit's descriptors of a parsed molecule, or the exception computing
      them raised. */
  datatype Descriptors =
    | Computed(molecularWeight: real, molecularFormula: string, atomCount: nat, bondCount: nat)
    | DescriptorsRaised(error: string)

  /** What parsing the SMILES text gives: an exception, no molecule, or a
      molecule with its 2D image (missing when drawing failed) and its
      descriptors. */
  datatype Parse =
    | ParseRaised(error: string)
    | NotParsed
    | Parsed(image: Option<string>, descriptors: Descriptors)

  /** The record `generate_simple_2d_structure` returns. */
  datatype Structure2d =
    | Drawn(smiles: string, structure2d: string, molecularWeight: real, molecularFormula: string,
            atomCount: nat, bondCount: nat)
    | NotDrawn(error: string)

  const InvalidSmilesError: string := "Invalid SMILES string provided"

  const No2dStructureError: string := "Could not generate 2D structure"

  /** `generate_simple_2d_structure`: an exception's message, the fixed
      message for an unparsable input or a missing image, or the drawing
      with the input text and the descriptors. */
  function Simple2dStructure(smiles: string, parse: Parse): (r: Structure2d)
    ensures r.Drawn? <==> parse.Parsed? && parse.image.Some? && parse.descriptors.Computed?
    ensures r.Drawn? ==> r.smiles == smiles && r.structure2d == parse.image.value
                         && r.molecularWeight == parse.descriptors.molecularWeight
                         && r.molecularFormula == parse.descriptors.molecularFormula
                         && r.atomCount == parse.descriptors.atomCount
                         && r.bondCount == parse.descriptors.bondCount
    ensures parse.NotParsed? ==> r == NotDrawn(InvalidSmilesError)
    ensures parse.Parsed? && parse.image.None? ==> r == NotDrawn(No2dStructureError)
    ensures parse.ParseRaised? ==> r == NotDrawn(parse.error)
    ensures parse.Parsed? && parse.image.Some? && parse.descriptors.DescriptorsRaised?
            ==> r == NotDrawn(parse.descriptors.error)
  {
    match parse
    case ParseRaised(e) => NotDrawn(e)
    case NotParsed => NotDrawn(InvalidSmilesError)
    case Parsed(image, descriptors) =>
      if image.None? then NotDrawn(No2dStructureError)
      else
        match descriptors
        case DescriptorsRaised(e) => NotDrawn(e)
        case Computed(weight, formula, atoms, bonds) => Drawn(smiles, image.value, weight, formula, atoms, bonds)
  }
}
