/** `generate_and_rank_isomers`: parse the SMILES text, enumerate its
    stereoisomers (falling back to the molecule itself), keep those whose 3D
    embedding and MMFF force field could be set up, sort the survivors by
    energy and number them 1, 2, ... in that order. Every RDKit call is an
    input: what it reports for each isomer is given by `IsomerOutcome`. */
module IsomerRanking {
  import opened Options

  /** What RDKit reports for one isomer: the status of `EmbedMolecule`
      (0 is success), whether MMFF properties and a force field could be
      made, the minimised energy, the isomeric SMILES, and the rendered 3D
      page and 2D image (the image may be missing). */
  datatype IsomerOutcome = IsomerOutcome(embedStatus: int, hasProperties: bool, hasForceField: bool,
                                         energy: real, smiles: string, visualization: string,
                                         structure2d: Option<string>)

  /** What RDKit reports for the input: whether it parsed, the enumerated
      stereoisomers in enumeration order, and the outcome for the parsed
      molecule itself. */
  datatype Chemistry = Chemistry(parsed: bool, stereoisomers: seq<IsomerOutcome>, base: IsomerOutcome)

  /** One entry of the result list before ranking. */
  datatype Candidate = Candidate(smiles: string, energy: real, visualization: string, structure2d: Option<string>)

  /** A result entry once its rank has been added. */
  datatype RankedIsomer = RankedIsomer(rank: nat, candidate: Candidate)

  // ----- the candidates -----

  /** The isomers to process: the enumerated ones, or the molecule itself
      when enumeration gives none. */
  function Candidates(chem: Chemistry): (cs: seq<IsomerOutcome>)
    ensures |cs| >= 1
    ensures chem.stereoisomers != [] ==> cs == chem.stereoisomers
  {
    if chem.stereoisomers == [] then [chem.base] else chem.stereoisomers
  }

  /** An isomer is kept when it embeds (status 0) and both MMFF steps succeed. */
  predicate Survives(o: IsomerOutcome) {
    o.embedStatus == 0 && o.hasProperties && o.hasForceField
  }

  function CandidateOf(o: IsomerOutcome): Candidate {
    Candidate(o.smiles, o.energy, o.visualization, o.structure2d)
  }

  /** The result list of the scoring loop: the candidate of every surviving
      isomer, in enumeration order. */
  function Survivors(os: seq<IsomerOutcome>): seq<Candidate>
    decreases |os|
  {
    if os == [] then []
    else
      var last := os[|os| - 1];
      Survivors(os[..|os| - 1]) + (if Survives(last) then [CandidateOf(last)] else [])
  }

  /** Filtering works piecewise, so the survivors keep the relative order
      of the isomers they come from. */
  lemma {:induction false} SurvivorsAppend(a: seq<IsomerOutcome>, b: seq<IsomerOutcome>)
    ensures Survivors(a + b) == Survivors(a) + Survivors(b)
    decreases |b|
  {
    if b == [] {
      assert a + b == a;
    } else {
      var b' := b[..|b| - 1];
      assert (a + b)[..|a + b| - 1] == a + b';
      assert (a + b)[|a + b| - 1] == b[|b| - 1];
      SurvivorsAppend(a, b');
    }
  }

  /** A candidate is in the result list exactly when some surviving isomer
      produced it; no more entries than isomers; empty exactly when no
      isomer survives. */
  lemma {:induction false} SurvivorsAre(os: seq<IsomerOutcome>)
    ensures forall c :: c in Survivors(os) <==> exists o :: o in os && Survives(o) && c == CandidateOf(o)
    ensures |Survivors(os)| <= |os|
    ensures Survivors(os) == [] <==> forall o :: o in os ==> !Survives(o)
    decreases |os|
  {
    if os != [] {
      var init, last := os[..|os| - 1], os[|os| - 1];
      SurvivorsAre(init);
      assert os == init + [last];
      forall o | o in os ensures o in init || o == last {
      }
    }
  }

  /** The scoring loop: try every candidate in order, skip the ones whose
      embedding, MMFF properties or force field fail, append the rest. */
  method ScoreCandidates(candidates: seq<IsomerOutcome>) returns (results: seq<Candidate>)
    ensures results == Survivors(candidates)
  {
    results := [];
    for i := 0 to |candidates|
      invariant results == Survivors(candidates[..i])
    {
      var o := candidates[i];
      assert candidates[..i + 1][..i] == candidates[..i];
      if o.embedStatus == 0 {
        if !o.hasProperties {
          continue;
        }
        if !o.hasForceField {
          continue;
        }
        results := results + [Candidate(o.smiles, o.energy, o.visualization, o.structure2d)];
      }
    }
    assert candidates[..|candidates|] == candidates;
  }

  // ----- sorting by energy -----

  /** Puts `c` before the first entry whose energy is not below its own. */
  function InsertByEnergy(c: Candidate, sorted: seq<Candidate>): seq<Candidate>
    decreases |sorted|
  {
    if sorted == [] || c.energy <= sorted[0].energy then [c] + sorted
    else [sorted[0]] + InsertByEnergy(c, sorted[1..])
  }

  /** Python's `sorted(results, key=energy)`: a stable sort, written as an
      insertion sort. */
  function SortByEnergy(cs: seq<Candidate>): seq<Candidate>
    decreases |cs|
  {
    if cs == [] then [] else InsertByEnergy(cs[0], SortByEnergy(cs[1..]))
  }

  predicate EnergyOrdered(cs: seq<Candidate>) {
    forall i, j :: 0 <= i < j < |cs| ==> cs[i].energy <= cs[j].energy
  }

  /** The entries of `cs` with energy `e`, in their order in `cs`. */
  function WithEnergy(cs: seq<Candidate>, e: real): seq<Candidate>
    decreases |cs|
  {
    if cs == [] then [] else (if cs[0].energy == e then [cs[0]] else []) + WithEnergy(cs[1..], e)
  }

  lemma WithEnergyCons(x: Candidate, s: seq<Candidate>, e: real)
    ensures WithEnergy([x] + s, e) == (if x.energy == e then [x] else []) + WithEnergy(s, e)
  {
    assert ([x] + s)[1..] == s;
  }

  lemma {:induction false} InsertByEnergyPermutation(c: Candidate, sorted: seq<Candidate>)
    ensures multiset(InsertByEnergy(c, sorted)) == multiset(sorted) + multiset{c}
    decreases |sorted|
  {
    if sorted != [] && c.energy > sorted[0].energy {
      InsertByEnergyPermutation(c, sorted[1..]);
      assert sorted == [sorted[0]] + sorted[1..];
    }
  }

  /** An entry ahead of an ordered list whose energies are all at least its own
      keeps the list ordered. */
  lemma ConsOrdered(x: Candidate, s: seq<Candidate>)
    requires EnergyOrdered(s)
    requires forall y :: y in s ==> x.energy <= y.energy
    ensures EnergyOrdered([x] + s)
  {
    var t := [x] + s;
    forall i, j | 0 <= i < j < |t| ensures t[i].energy <= t[j].energy {
      assert t[j] == s[j - 1];
      if i > 0 {
        assert t[i] == s[i - 1];
      }
    }
  }

  lemma {:induction false} InsertByEnergyOrdered(c: Candidate, sorted: seq<Candidate>)
    requires EnergyOrdered(sorted)
    ensures EnergyOrdered(InsertByEnergy(c, sorted))
    decreases |sorted|
  {
    if sorted == [] || c.energy <= sorted[0].energy {
      forall y | y in sorted ensures c.energy <= y.energy {
      }
      ConsOrdered(c, sorted);
    } else {
      var first, tail := sorted[0], sorted[1..];
      assert EnergyOrdered(tail);
      InsertByEnergyOrdered(c, tail);
      InsertByEnergyPermutation(c, tail);
      var rest := InsertByEnergy(c, tail);
      forall y | y in rest ensures first.energy <= y.energy {
        assert y in multiset(rest);
        assert y == c || y in multiset(tail);
      }
      ConsOrdered(first, rest);
    }
  }

  /** Inserting `c` into an ordered list puts it ahead of every entry of
      equal energy. */
  lemma {:induction false} InsertByEnergyStable(c: Candidate, sorted: seq<Candidate>, e: real)
    requires EnergyOrdered(sorted)
    ensures WithEnergy(InsertByEnergy(c, sorted), e)
         == (if c.energy == e then [c] else []) + WithEnergy(sorted, e)
    decreases |sorted|
  {
    if sorted == [] || c.energy <= sorted[0].energy {
      WithEnergyCons(c, sorted, e);
    } else {
      var first, tail := sorted[0], sorted[1..];
      assert EnergyOrdered(tail);
      InsertByEnergyStable(c, tail, e);
      WithEnergyCons(first, InsertByEnergy(c, tail), e);
      assert sorted == [first] + tail;
      WithEnergyCons(first, tail, e);
      assert c.energy == e ==> first.energy != e;
    }
  }

  /** The sorted list is ordered by non-decreasing energy, holds the same
      entries, and keeps entries of equal energy in their original order. */
  lemma {:induction false} SortByEnergyCorrect(cs: seq<Candidate>)
    ensures EnergyOrdered(SortByEnergy(cs))
    ensures multiset(SortByEnergy(cs)) == multiset(cs)
    ensures forall e :: WithEnergy(SortByEnergy(cs), e) == WithEnergy(cs, e)
    decreases |cs|
  {
    if cs != [] {
      var rest := SortByEnergy(cs[1..]);
      SortByEnergyCorrect(cs[1..]);
      InsertByEnergyOrdered(cs[0], rest);
      InsertByEnergyPermutation(cs[0], rest);
      assert cs == [cs[0]] + cs[1..];
      forall e ensures WithEnergy(SortByEnergy(cs), e) == WithEnergy(cs, e) {
        InsertByEnergyStable(cs[0], rest, e);
        WithEnergyCons(cs[0], cs[1..], e);
      }
    }
  }

  // ----- ranks -----

  /** The entries of `sorted` numbered 1, 2, ... in list order. */
  function WithRanks(sorted: seq<Candidate>): (ranked: seq<RankedIsomer>)
    ensures |ranked| == |sorted|
  {
    seq(|sorted|, i requires 0 <= i < |sorted| => RankedIsomer(i + 1, sorted[i]))
  }

  /** The ranking loop: the entry at position i gets rank i + 1. */
  method AssignRanks(sorted: seq<Candidate>) returns (ranked: seq<RankedIsomer>)
    ensures |ranked| == |sorted|
    ensures forall i :: 0 <= i < |sorted| ==> ranked[i].rank == i + 1 && ranked[i].candidate == sorted[i]
    ensures ranked == WithRanks(sorted)
  {
    ranked := [];
    for i := 0 to |sorted|
      invariant |ranked| == i
      invariant forall k :: 0 <= k < i ==> ranked[k] == RankedIsomer(k + 1, sorted[k])
    {
      ranked := ranked + [RankedIsomer(i + 1, sorted[i])];
    }
  }

  /** The ranked entries without their ranks. */
  function Unranked(ranked: seq<RankedIsomer>): (cs: seq<Candidate>)
    ensures |cs| == |ranked|
    ensures forall i :: 0 <= i < |ranked| ==> cs[i] == ranked[i].candidate
  {
    seq(|ranked|, i requires 0 <= i < |ranked| => ranked[i].candidate)
  }

  // ----- the whole function -----

  /** What `generate_and_rank_isomers` returns: nothing when the input does
      not parse or no isomer survives, otherwise the ranked survivors. */
  function Ranking(chem: Chemistry): Option<seq<RankedIsomer>> {
    if !chem.parsed then None
    else
      var survivors := Survivors(Candidates(chem));
      if survivors == [] then None else Some(WithRanks(SortByEnergy(survivors)))
  }

  method GenerateAndRankIsomers(chem: Chemistry) returns (ranked: Option<seq<RankedIsomer>>)
    ensures ranked == Ranking(chem)
  {
    if !chem.parsed {
      return None;
    }
    var isomers := chem.stereoisomers;
    if isomers == [] {
      isomers := [chem.base];
    }
    var results := ScoreCandidates(isomers);
    if results == [] {
      return None;
    }
    var sorted := SortByEnergy(results);
    var numbered := AssignRanks(sorted);
    ranked := Some(numbered);
  }

  /** What the ranking promises: no result exactly when the input does not
      parse or no isomer survives; otherwise a non-empty list ranked 1..n,
      by non-decreasing energy, holding exactly the survivors, with equal
      energies in enumeration order. */
  lemma RankingProperties(chem: Chemistry)
    ensures Ranking(chem).None? <==> !chem.parsed || forall o :: o in Candidates(chem) ==> !Survives(o)
    ensures Ranking(chem).Some? ==>
              var ranked := Ranking(chem).value;
              var survivors := Survivors(Candidates(chem));
              && |ranked| >= 1
              && (forall i :: 0 <= i < |ranked| ==> ranked[i].rank == i + 1)
              && EnergyOrdered(Unranked(ranked))
              && multiset(Unranked(ranked)) == multiset(survivors)
              && (forall e :: WithEnergy(Unranked(ranked), e) == WithEnergy(survivors, e))
  {
    var survivors := Survivors(Candidates(chem));
    SurvivorsAre(Candidates(chem));
    if chem.parsed && survivors != [] {
      var sorted := SortByEnergy(survivors);
      SortByEnergyCorrect(survivors);
      assert Unranked(WithRanks(sorted)) == sorted;
    }
  }
}
