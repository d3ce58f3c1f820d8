/** The deterministic part of `create_interactive_3d_visualization`, which both
    demo processors contain: the mock atoms, the atom-count dictionary, the
    formula built from it and the bonds between nearby atoms. The bond coin
    flips come from a random generator seeded by the file name; here they are
    an arbitrary oracle `coin(i, j)`, asked once per candidate pair. */
module MoleculeSketch {
  import opened Options
  import opened Formula

  /** A generated atom; its colour, radius and random coordinates are not modelled. */
  datatype Atom = Atom(id: nat, symbol: char)

  datatype Bond = Bond(from: nat, to: nat)

  /** The deterministic part of a generated page: its file name and title,
      the atoms and bonds the page draws, and the formula the function
      computes from the atom counts. That formula is not displayed: the page
      prints the formula, atom and bond counts it is handed by its caller. */
  datatype Scene = Scene(filename: string, title: string, atoms: seq<Atom>, bonds: seq<Bond>, formula: string)

  /** The symbols of the five-entry element table, in table order. */
  const TableSymbols: seq<char> := ['C', 'N', 'O', 'H', 'S']

  /** The number of atoms used when the molecule data names none. */
  const DefaultAtomCount: int := 20

  function AtomsRequested(numAtoms: Option<int>): int {
    match numAtoms
    case Some(n) => n
    case None => DefaultAtomCount
  }

  /** How many times `range(n)` runs: never negative. */
  function Iterations(n: int): nat {
    if n < 0 then 0 else n
  }

  function Min(a: int, b: int): int {
    if a <= b then a else b
  }

  // ----- atoms -----

  function AtomAt(i: nat): Atom {
    Atom(i, TableSymbols[i % 5])
  }

  /** The atom list for `n` requested atoms: atom i has id i and the symbol of
      table slot i % 5, and there is one atom per iteration of `range(n)`. */
  function Atoms(n: nat): (atoms: seq<Atom>)
    ensures |atoms| == n
    decreases n
  {
    if n <= 0 then [] else Atoms(n - 1) + [AtomAt(n - 1)]
  }

  lemma {:induction false} AtomsAre(n: nat)
    ensures forall i :: 0 <= i < n ==> Atoms(n)[i] == Atom(i, TableSymbols[i % 5])
    decreases n
  {
    if n > 0 {
      AtomsAre(n - 1);
    }
  }

  // ----- atom counts -----

  /** The table slot of a symbol. */
  function Slot(s: char): (k: nat)
    requires s in TableSymbols
    ensures k < 5 && TableSymbols[k] == s
  {
    if s == 'C' then 0 else if s == 'N' then 1 else if s == 'O' then 2 else if s == 'H' then 3 else 4
  }

  /** How many of the indices 0 .. n-1 land in table slot k. */
  function SlotCount(n: nat, k: nat): nat
    decreases n
  {
    if n <= 0 then 0 else SlotCount(n - 1, k) + (if (n - 1) % 5 == k then 1 else 0)
  }

  /** `count[s] = count.get(s, 0) + 1`. */
  function Bump(count: map<char, nat>, s: char): (r: map<char, nat>)
    ensures r.Keys == count.Keys + {s}
  {
    count[s := (if s in count then count[s] else 0) + 1]
  }

  /** The symbol-count dictionary after `n` iterations: atom i bumps the
      count of its symbol. */
  function Tally(n: nat): map<char, nat>
    decreases n
  {
    if n <= 0 then map[] else Bump(Tally(n - 1), TableSymbols[(n - 1) % 5])
  }

  /** Closed form of a slot count: slot k gets the indices k, k+5, k+10, ... below n. */
  lemma {:induction false} SlotCountClosedForm(n: nat, k: nat)
    requires k < 5
    ensures SlotCount(n, k) == if n <= k then 0 else (n - 1 - k) / 5 + 1
    decreases n
  {
    if n > 0 {
      SlotCountClosedForm(n - 1, k);
      if n - 1 > k {
        var q := n - 1 - k;
        assert (n - 1) % 5 == k <==> q % 5 == 0;
        assert q / 5 == (q - 1) / 5 + (if q % 5 == 0 then 1 else 0);
      }
    }
  }

  /** A slot that some index below n reaches holds at least one atom. */
  lemma {:induction false} SlotCountPositive(n: nat, k: nat)
    requires k < 5 && k < n
    ensures SlotCount(n, k) >= 1
    decreases n
  {
    if n - 1 > k {
      SlotCountPositive(n - 1, k);
    } else {
      assert (n - 1) % 5 == k;
    }
  }

  /** The five slot counts add up to the number of atoms. */
  lemma {:induction false} SlotCountsTotal(n: nat)
    ensures SlotCount(n, 0) + SlotCount(n, 1) + SlotCount(n, 2) + SlotCount(n, 3) + SlotCount(n, 4) == n
    decreases n
  {
    if n > 0 {
      SlotCountsTotal(n - 1);
    }
  }

  /** Only table symbols are ever counted. */
  lemma {:induction false} TallyKeys(n: nat)
    ensures forall s :: s in Tally(n) ==> s in TableSymbols
    decreases n
  {
    if n > 0 {
      TallyKeys(n - 1);
    }
  }

  /** The symbol of slot k is counted once an atom has reached the slot, with
      the number of atoms in the slot so far. */
  lemma {:induction false} TallySlot(n: nat, k: nat)
    requires k < 5
    ensures TableSymbols[k] in Tally(n) <==> k < n
    ensures k < n ==> Tally(n)[TableSymbols[k]] == SlotCount(n, k)
    decreases n
  {
    if n > 0 {
      TallySlot(n - 1, k);
      var j := (n - 1) % 5;
      assert j <= n - 1 && (n - 1 < 5 ==> j == n - 1);
      var before, sym := Tally(n - 1), TableSymbols[k];
      assert Tally(n) == Bump(before, TableSymbols[j]);
      assert SlotCount(n, k) == SlotCount(n - 1, k) + (if j == k then 1 else 0);
      if k == j {
        if n - 1 <= k {
          SlotCountZero(n - 1, k);
        }
        BumpAt(before, sym, sym);
      } else {
        TableSymbolsDistinct(k, j);
        BumpAt(before, TableSymbols[j], sym);
      }
    }
  }

  lemma BumpAt(count: map<char, nat>, s: char, x: char)
    ensures x in Bump(count, s) <==> x in count || x == s
    ensures x == s ==> Bump(count, s)[x] == (if s in count then count[s] else 0) + 1
    ensures x != s && x in count ==> Bump(count, s)[x] == count[x]
  {
  }

  /** No index below n reaches a slot k >= n. */
  lemma {:induction false} SlotCountZero(n: nat, k: nat)
    requires k < 5 && n <= k
    ensures SlotCount(n, k) == 0
    decreases n
  {
    if n > 0 {
      assert (n - 1) % 5 == n - 1;
      SlotCountZero(n - 1, k);
    }
  }

  lemma TableSymbolsDistinct(a: nat, b: nat)
    requires a < 5 && b < 5 && a != b
    ensures TableSymbols[a] != TableSymbols[b]
  {
  }

  /** A symbol is in the dictionary exactly when some atom carries it, and
      then its count is the number of indices below n in its slot. */
  lemma TallyAt(n: nat, k: nat)
    requires k < 5
    ensures TableSymbols[k] in Tally(n) <==> k < n
    ensures k < n ==> Tally(n)[TableSymbols[k]] == (n - 1 - k) / 5 + 1 >= 1
  {
    TallySlot(n, k);
    SlotCountClosedForm(n, k);
  }

  /** Every generated symbol is one of C, H, N, O, S, so the loop over
      symbols outside that order never finds one. */
  lemma TallySymbolsInOrder(n: nat)
    ensures forall s :: s in Tally(n) ==> s in FormulaOrder
  {
    TallyKeys(n);
  }

  // ----- formula -----

  /** Sum of the counts of a list of terms. */
  function TotalCount(terms: seq<Term>): nat
    decreases |terms|
  {
    if terms == [] then 0 else terms[0].count + TotalCount(terms[1..])
  }

  /** The formula terms of the dictionary after `n` atoms. */
  function TallyTerms(n: nat): seq<Term> {
    TermsInOrder(Tally(n), FormulaOrder)
  }

  function CountOrZero(m: map<char, nat>, s: char): nat {
    if s in m then m[s] else 0
  }

  lemma {:induction false} TotalCountInOrder(m: map<char, nat>, order: seq<char>)
    ensures TotalCount(TermsInOrder(m, order))
         == if order == [] then 0 else CountOrZero(m, order[0]) + TotalCount(TermsInOrder(m, order[1..]))
  {
    if order != [] && order[0] in m {
      var ts := TermsInOrder(m, order);
      assert ts[1..] == TermsInOrder(m, order[1..]);
    }
  }

  /** The formula terms account for every atom exactly once. */
  lemma TallyTermsTotal(n: nat)
    ensures TotalCount(TallyTerms(n)) == n
  {
    var m := Tally(n);
    var o := FormulaOrder;
    TotalCountInOrder(m, o);
    TotalCountInOrder(m, o[1..]);
    TotalCountInOrder(m, o[2..]);
    TotalCountInOrder(m, o[3..]);
    TotalCountInOrder(m, o[4..]);
    assert o[1..][1..] == o[2..] && o[2..][1..] == o[3..] && o[3..][1..] == o[4..] && o[4..][1..] == [];
    forall k | 0 <= k < 5
      ensures CountOrZero(m, TableSymbols[k]) == SlotCount(n, k)
    {
      TallySlot(n, k);
      if n <= k {
        SlotCountZero(n, k);
      }
    }
    assert CountOrZero(m, 'C') == SlotCount(n, 0);
    assert CountOrZero(m, 'N') == SlotCount(n, 1);
    assert CountOrZero(m, 'O') == SlotCount(n, 2);
    assert CountOrZero(m, 'H') == SlotCount(n, 3);
    assert CountOrZero(m, 'S') == SlotCount(n, 4);
    SlotCountsTotal(n);
  }

  lemma {:induction false} TermsInOrderWellFormed(m: map<char, nat>, order: seq<char>)
    requires forall s :: s in order ==> IsSymbol(s)
    requires forall s :: s in m ==> m[s] >= 1
    ensures WellFormed(TermsInOrder(m, order))
    decreases |order|
  {
    if order != [] {
      TermsInOrderWellFormed(m, order[1..]);
    }
  }

  /** The sketch's formula reads back as its terms: one per symbol present, in
      the order C, H, N, O, S, together accounting for all `n` atoms. */
  lemma SketchFormulaReadsBack(n: nat)
    ensures ParseFormula(Render(TallyTerms(n))) == Some(TallyTerms(n))
    ensures TotalCount(TallyTerms(n)) == n
  {
    TallyKeys(n);
    forall s | s in Tally(n) ensures Tally(n)[s] >= 1 {
      TallySlot(n, Slot(s));
      SlotCountPositive(n, Slot(s));
    }
    TermsInOrderWellFormed(Tally(n), FormulaOrder);
    ParseRender(TallyTerms(n));
    TallyTermsTotal(n);
  }

  /** The terms for the symbols of `others`, in that order. */
  function OtherTerms(m: map<char, nat>, others: seq<char>): seq<Term>
    requires forall s :: s in others ==> s in m
  {
    seq(|others|, i requires 0 <= i < |others| => Term(others[i], m[others[i]]))
  }

  /** The first formula loop: the symbols of C, H, N, O, S that occur, in
      that order, each with its count. */
  method OrderedTerms(atomCount: map<char, nat>) returns (parts: seq<Term>)
    ensures parts == TermsInOrder(atomCount, FormulaOrder)
  {
    parts := [];
    for k := 0 to |FormulaOrder|
      invariant parts == TermsInOrder(atomCount, FormulaOrder[..k])
    {
      var symbol := FormulaOrder[k];
      assert FormulaOrder[..k + 1] == FormulaOrder[..k] + [symbol];
      TermsInOrderSnoc(atomCount, FormulaOrder[..k], symbol);
      if symbol in atomCount {
        parts := parts + [Term(symbol, atomCount[symbol])];
      }
    }
    assert FormulaOrder[..|FormulaOrder|] == FormulaOrder;
  }

  /** The second formula loop: every symbol of the dictionary outside C, H,
      N, O, S, each once. Python visits them in insertion order; the model
      visits them in an unspecified order and reports it as `others`. */
  method OtherSymbolTerms(atomCount: map<char, nat>) returns (parts: seq<Term>, ghost others: seq<char>)
    ensures forall s :: s in others <==> s in atomCount && s !in FormulaOrder
    ensures forall p, q :: 0 <= p < q < |others| ==> others[p] != others[q]
    ensures (forall s :: s in atomCount ==> s in FormulaOrder) ==> parts == []
    ensures parts == OtherTerms(atomCount, others)
  {
    parts, others := [], [];
    var remaining := atomCount.Keys;
    while remaining != {}
      invariant remaining <= atomCount.Keys
      invariant forall s :: s in others <==> s in atomCount && s !in remaining && s !in FormulaOrder
      invariant forall p, q :: 0 <= p < q < |others| ==> others[p] != others[q]
      invariant (forall s :: s in atomCount ==> s in FormulaOrder) ==> parts == []
      invariant parts == OtherTerms(atomCount, others)
      decreases |remaining|
    {
      var symbol :| symbol in remaining;
      if symbol !in FormulaOrder {
        parts := parts + [Term(symbol, atomCount[symbol])];
        others := others + [symbol];
      }
      remaining := remaining - {symbol};
    }
  }

  /** The formula of an atom-count dictionary: the C, H, N, O, S terms in
      that order, then the terms of every other symbol. */
  method BuildFormula(atomCount: map<char, nat>) returns (formula: string, ghost others: seq<char>)
    ensures forall s :: s in others <==> s in atomCount && s !in FormulaOrder
    ensures forall p, q :: 0 <= p < q < |others| ==> others[p] != others[q]
    ensures (forall s :: s in atomCount ==> s in FormulaOrder) ==> formula == Render(TermsInOrder(atomCount, FormulaOrder))
    ensures formula == Render(TermsInOrder(atomCount, FormulaOrder) + OtherTerms(atomCount, others))
  {
    var ordered := OrderedTerms(atomCount);
    var extra;
    extra, others := OtherSymbolTerms(atomCount);
    if forall s :: s in atomCount ==> s in FormulaOrder {
      assert ordered + extra == ordered;
    }
    formula := Render(ordered + extra);
  }

  // ----- bonds -----

  /** The bonds the inner loop draws from atom i to the atoms i+1 .. j-1. */
  function RowBonds(i: nat, j: nat, coin: (nat, nat) -> bool): seq<Bond>
    decreases j
  {
    if j <= i + 1 then [] else RowBonds(i, j - 1, coin) + (if coin(i, j - 1) then [Bond(i, j - 1)] else [])
  }

  /** The bonds drawn by the first k iterations of the outer loop over n atoms. */
  function Bonds(k: nat, n: nat, coin: (nat, nat) -> bool): seq<Bond>
    decreases k
  {
    if k == 0 then [] else Bonds(k - 1, n, coin) + RowBonds(k - 1, Min(k + 3, n), coin)
  }

  /** Atom `to` is one of the (at most three) atoms that follow `from`. */
  predicate InWindow(b: Bond, n: nat) {
    b.from < b.to < Min(b.from + 4, n)
  }

  predicate BondBefore(a: Bond, b: Bond) {
    a.from < b.from || (a.from == b.from && a.to < b.to)
  }

  /** Strictly increasing, so in particular no pair is drawn twice. */
  predicate StrictlyOrdered(bonds: seq<Bond>) {
    forall p, q :: 0 <= p < q < |bonds| ==> BondBefore(bonds[p], bonds[q])
  }

  lemma {:induction false} RowBondsAre(i: nat, j: nat, coin: (nat, nat) -> bool)
    ensures forall b :: b in RowBonds(i, j, coin) <==> b.from == i && i < b.to < j && coin(i, b.to)
    ensures StrictlyOrdered(RowBonds(i, j, coin))
    decreases j
  {
    if j > i + 1 {
      RowBondsAre(i, j - 1, coin);
    }
  }

  /** Exactly the pairs inside the window whose coin came up are bonded, in
      increasing order, whatever the coin flips are. */
  lemma {:induction false} BondsAre(k: nat, n: nat, coin: (nat, nat) -> bool)
    ensures forall b :: b in Bonds(k, n, coin) <==> b.from < k && InWindow(b, n) && coin(b.from, b.to)
    ensures StrictlyOrdered(Bonds(k, n, coin))
    decreases k
  {
    if k > 0 {
      BondsAre(k - 1, n, coin);
      RowBondsAre(k - 1, Min(k + 3, n), coin);
      var a, r := Bonds(k - 1, n, coin), RowBonds(k - 1, Min(k + 3, n), coin);
      forall p, q | 0 <= p < q < |a + r| ensures BondBefore((a + r)[p], (a + r)[q]) {
        if q >= |a| && p < |a| {
          assert (a + r)[p] in a && (a + r)[q] in r;
        } else if p >= |a| {
          assert (a + r)[p] == r[p - |a|] && (a + r)[q] == r[q - |a|];
        }
      }
    }
  }

  /** Over all n atoms: exactly the pairs inside the window whose coin came
      up, in increasing order. */
  lemma BondsInWindow(n: nat, coin: (nat, nat) -> bool)
    ensures forall b :: b in Bonds(n, n, coin) <==> InWindow(b, n) && coin(b.from, b.to)
    ensures StrictlyOrdered(Bonds(n, n, coin))
  {
    BondsAre(n, n, coin);
  }

  /** No bond of the sketch is listed twice. */
  lemma NoDuplicateBonds(n: nat, coin: (nat, nat) -> bool)
    ensures forall p, q :: 0 <= p < q < |Bonds(n, n, coin)| ==> Bonds(n, n, coin)[p] != Bonds(n, n, coin)[q]
  {
    BondsAre(n, n, coin);
  }

  /** The nested bond loops: for each atom i, for each j in
      `range(i + 1, min(i + 4, n))`, a bond (i, j) when the coin comes up. */
  method GenerateBonds(n: nat, coin: (nat, nat) -> bool) returns (bonds: seq<Bond>)
    ensures bonds == Bonds(n, n, coin)
  {
    bonds := [];
    for i := 0 to n
      invariant bonds == Bonds(i, n, coin)
    {
      var end := Min(i + 4, n);
      for j := i + 1 to end
        invariant bonds == Bonds(i, n, coin) + RowBonds(i, j, coin)
      {
        if coin(i, j) {
          bonds := bonds + [Bond(i, j)];
        }
      }
    }
  }

  // ----- the whole sketch -----

  /** The atom loop: one atom per index, and the symbol-count dictionary
      updated with `count.get(symbol, 0) + 1`. */
  method GenerateAtoms(n: nat) returns (atoms: seq<Atom>, atomCount: map<char, nat>)
    ensures atoms == Atoms(n)
    ensures atomCount == Tally(n)
  {
    atoms, atomCount := [], map[];
    for i := 0 to n
      invariant atoms == Atoms(i)
      invariant atomCount == Tally(i)
    {
      var symbol := TableSymbols[i % 5];
      atomCount := atomCount[symbol := (if symbol in atomCount then atomCount[symbol] else 0) + 1];
      assert atomCount == Bump(Tally(i), symbol);
      atoms := atoms + [Atom(i, symbol)];
    }
  }

  /** The scene for a file: atoms and counts for the requested number of
      atoms (20 when none is given), the formula of those counts and the
      bonds between nearby atoms. */
  function SceneOf(filename: string, title: string, numAtoms: Option<int>, coin: (nat, nat) -> bool): Scene
  {
    var n := Iterations(AtomsRequested(numAtoms));
    Scene(filename, title, Atoms(n), Bonds(n, n, coin), Render(TallyTerms(n)))
  }

  /** The atom/bond/formula part of `create_interactive_3d_visualization`. */
  method Sketch(filename: string, title: string, numAtoms: Option<int>, coin: (nat, nat) -> bool)
    returns (scene: Scene)
    ensures scene == SceneOf(filename, title, numAtoms, coin)
  {
    var n := Iterations(AtomsRequested(numAtoms));
    var atoms, atomCount := GenerateAtoms(n);
    var formula, others := BuildFormula(atomCount);
    TallySymbolsInOrder(n);
    var bonds := GenerateBonds(|atoms|, coin);
    scene := Scene(filename, title, atoms, bonds, formula);
  }

  /** Everything the source promises of a sketch, for any coin flips: one atom
      per requested index with the round-robin symbol, every bond inside the
      window of the three following atoms and no bond twice, and a formula
      that reads back as C, H, N, O, S counts adding up to the atom count. */
  lemma SceneProperties(filename: string, title: string, numAtoms: Option<int>, coin: (nat, nat) -> bool)
    ensures var sc := SceneOf(filename, title, numAtoms, coin);
            var n := Iterations(AtomsRequested(numAtoms));
            && |sc.atoms| == n
            && (forall i :: 0 <= i < n ==> sc.atoms[i] == Atom(i, TableSymbols[i % 5]))
            && (forall b :: b in sc.bonds <==> InWindow(b, n) && coin(b.from, b.to))
            && StrictlyOrdered(sc.bonds)
            && ParseFormula(sc.formula) == Some(TallyTerms(n))
            && TotalCount(TallyTerms(n)) == n
  {
    var n := Iterations(AtomsRequested(numAtoms));
    AtomsAre(n);
    BondsInWindow(n, coin);
    SketchFormulaReadsBack(n);
  }
}
