/** The per-file steps that `process_quantum` and `process_classical` share:
    the file name taken from the path, the mock atom and bond counts derived
    from its length, the mock five-element composition and its formula, and
    the rule by which the two result dictionaries are filled. */
module MockFile {
  import opened Options
  import opened Formula

  const Backslash: char := '\\'

  /** `path.split('\\')[-1]`: the text after the last backslash, or the whole
      path when it has none. */
  function FileName(path: string): (name: string)
    ensures |name| <= |path| && name == path[|path| - |name|..]
    ensures Backslash !in name
    ensures |name| < |path| ==> path[|path| - |name| - 1] == Backslash
    decreases |path|
  {
    if path == [] then []
    else if path[|path| - 1] == Backslash then []
    else FileName(path[..|path| - 1]) + [path[|path| - 1]]
  }

  /** Joining a directory and a backslash-free name with a backslash and
      taking the file name gives the name back. */
  lemma {:induction false} FileNameOfJoin(dir: string, name: string)
    requires Backslash !in name
    ensures FileName(dir + [Backslash] + name) == name
    decreases |name|
  {
    var path := dir + [Backslash] + name;
    if name == [] {
      assert path == dir + [Backslash];
    } else {
      var init := name[..|name| - 1];
      assert path[..|path| - 1] == dir + [Backslash] + init;
      FileNameOfJoin(dir, init);
      assert name == init + [name[|name| - 1]];
    }
  }

  /** A path without a backslash is its own file name. */
  lemma {:induction false} FileNameOfBareName(name: string)
    requires Backslash !in name
    ensures FileName(name) == name
    decreases |name|
  {
    if name != [] {
      var init := name[..|name| - 1];
      FileNameOfBareName(init);
      assert name == init + [name[|name| - 1]];
    }
  }

  /** The mock molecule summary stored for a processed file. */
  datatype MoleculeInfo = MoleculeInfo(numAtoms: int, numBonds: int, chemicalFormula: string)

  /** Mock atom count: 20 plus two per character of the file name. */
  function MockAtomCount(filename: string): (n: int)
    ensures n >= 20 && n == 20 + 2 * |filename|
  {
    20 + |filename| * 2
  }

  /** Mock bond count: one less than the atom count, as in a chain. */
  function MockBondCount(filename: string): (b: int)
    ensures b + 1 == MockAtomCount(filename)
  {
    MockAtomCount(filename) - 1
  }

  /** The mock composition: counts of C, H, O, N and S, in the order the
      source computes them. */
  datatype Composition = Composition(c: int, h: int, o: int, n: int, s: int)

  function Max(a: int, b: int): int {
    if a >= b then a else b
  }

  /** Python's `int(x)` on `total * num / den`: division truncated toward zero. */
  function TruncatedShare(total: int, num: nat, den: nat): int
    requires den > 0
  {
    if total * num >= 0 then total * num / den else -((-(total * num)) / den)
  }

  /** Each share raised to at least 1, and sulfur given whatever remains
      (again at least 1). */
  function CompositionFromShares(total: int, c0: int, h0: int, o0: int, n0: int): Composition {
    var c, h, o, n := Max(1, c0), Max(1, h0), Max(1, o0), Max(1, n0);
    Composition(c, h, o, n, Max(1, total - c - h - o - n))
  }

  /** The source's shares: 40% carbon, 30% hydrogen, 15% oxygen, 10% nitrogen. */
  function MockComposition(total: int): Composition {
    CompositionFromShares(total, TruncatedShare(total, 4, 10), TruncatedShare(total, 3, 10),
                          TruncatedShare(total, 15, 100), TruncatedShare(total, 1, 10))
  }

  function CompositionSum(comp: Composition): int {
    comp.c + comp.h + comp.o + comp.n + comp.s
  }

  /** Whatever the raw shares are (so also under float rounding), every count
      is at least 1 and the counts add up to at least the total. */
  lemma CompositionBounds(total: int, c0: int, h0: int, o0: int, n0: int)
    ensures var comp := CompositionFromShares(total, c0, h0, o0, n0);
            comp.c >= 1 && comp.h >= 1 && comp.o >= 1 && comp.n >= 1 && comp.s >= 1
            && CompositionSum(comp) >= total
  {
  }

  lemma ShareBounds(total: int, num: nat, den: nat)
    requires den > 0 && total >= 0
    ensures 0 <= TruncatedShare(total, num, den) && TruncatedShare(total, num, den) * den <= total * num
    ensures total * num >= den ==> TruncatedShare(total, num, den) >= 1
  {
  }

  /** From ten atoms on, no share needs raising and the counts add up to
      exactly the total; every mock file has at least twenty. */
  lemma MockCompositionExact(total: int)
    requires total >= 10
    ensures CompositionSum(MockComposition(total)) == total
  {
    ShareBounds(total, 4, 10);
    ShareBounds(total, 3, 10);
    ShareBounds(total, 15, 100);
    ShareBounds(total, 1, 10);
    var c, h, o, n := TruncatedShare(total, 4, 10), TruncatedShare(total, 3, 10),
                      TruncatedShare(total, 15, 100), TruncatedShare(total, 1, 10);
    assert 100 * (c + h + o + n) <= 95 * total;
  }

  /** One element's part of the mock formula: the bare symbol for 1, the
      subscripted count above 1, nothing otherwise. */
  function ShareText(symbol: char, count: int): string {
    if count == 1 then [symbol] else if count > 1 then TermText(Term(symbol, count)) else []
  }

  /** The mock formula, elements in the order C, H, N, O, S. */
  function CompositionFormula(comp: Composition): string {
    ShareText('C', comp.c) + (ShareText('H', comp.h) + (ShareText('N', comp.n)
      + (ShareText('O', comp.o) + ShareText('S', comp.s))))
  }

  function CompositionTerms(comp: Composition): seq<Term>
    requires comp.c >= 1 && comp.h >= 1 && comp.o >= 1 && comp.n >= 1 && comp.s >= 1
  {
    [Term('C', comp.c), Term('H', comp.h), Term('N', comp.n), Term('O', comp.o), Term('S', comp.s)]
  }

  lemma ShareTextOfTerm(symbol: char, count: int)
    requires count >= 1
    ensures ShareText(symbol, count) == TermText(Term(symbol, count))
  {
  }

  lemma CompositionFormulaIsRender(comp: Composition)
    requires comp.c >= 1 && comp.h >= 1 && comp.o >= 1 && comp.n >= 1 && comp.s >= 1
    ensures CompositionFormula(comp) == Render(CompositionTerms(comp))
    ensures WellFormed(CompositionTerms(comp))
  {
    var t0, t1, t2, t3, t4 := Term('C', comp.c), Term('H', comp.h), Term('N', comp.n), Term('O', comp.o), Term('S', comp.s);
    ShareTextOfTerm('C', comp.c);
    ShareTextOfTerm('H', comp.h);
    ShareTextOfTerm('N', comp.n);
    ShareTextOfTerm('O', comp.o);
    ShareTextOfTerm('S', comp.s);
    RenderCons(t4, []);
    RenderCons(t3, [t4]);
    RenderCons(t2, [t3, t4]);
    RenderCons(t1, [t2, t3, t4]);
    RenderCons(t0, [t1, t2, t3, t4]);
    assert TermText(t4) + [] == TermText(t4);
    assert [t4] + [] == [t4] && [t3] + [t4] == [t3, t4] && [t2] + [t3, t4] == [t2, t3, t4];
    assert [t1] + [t2, t3, t4] == [t1, t2, t3, t4] && [t0] + [t1, t2, t3, t4] == CompositionTerms(comp);
  }

  /** The formula of a file's mock composition always names exactly C, H, N,
      O and S, in that order, each with its count, and (the file's atom count
      being at least 20) the counts add up to the file's atom count. */
  lemma MockFormulaReadsBack(filename: string)
    ensures var comp := MockComposition(MockAtomCount(filename));
            comp.c >= 1 && comp.h >= 1 && comp.o >= 1 && comp.n >= 1 && comp.s >= 1
            && ParseFormula(CompositionFormula(comp)) == Some(CompositionTerms(comp))
            && CompositionSum(comp) == MockAtomCount(filename)
  {
    var total := MockAtomCount(filename);
    var comp := MockComposition(total);
    MockCompositionExact(total);
    CompositionFormulaIsRender(comp);
    ParseRender(CompositionTerms(comp));
  }

  /** The mock molecule summary of a file: atom and bond counts from the
      file name's length, and the formula of the mock composition. */
  function MockInfo(filename: string): MoleculeInfo {
    var total := MockAtomCount(filename);
    MoleculeInfo(total, MockBondCount(filename), CompositionFormula(MockComposition(total)))
  }

  /** What the source promises of a file's mock summary: 20 + 2 atoms per
      name character, one bond fewer, and a formula naming C, H, N, O and S
      in that order, each at least once, with counts adding up to the atoms. */
  ghost predicate MockInfoFacts(filename: string) {
    var info := MockInfo(filename);
    var comp := MockComposition(info.numAtoms);
    && info.numAtoms == 20 + 2 * |filename|
    && info.numBonds == info.numAtoms - 1
    && comp.c >= 1 && comp.h >= 1 && comp.o >= 1 && comp.n >= 1 && comp.s >= 1
    && ParseFormula(info.chemicalFormula) == Some(CompositionTerms(comp))
    && CompositionSum(comp) == info.numAtoms
  }

  lemma MockInfoHolds(filename: string)
    ensures MockInfoFacts(filename)
  {
    var info := MockInfo(filename);
    assert info.numAtoms == MockAtomCount(filename);
    assert info.chemicalFormula == CompositionFormula(MockComposition(MockAtomCount(filename)));
    MockFormulaReadsBack(filename);
  }

  // ----- filling the result dictionaries -----

  /** The file names of the given paths, in order. */
  function Names(paths: seq<string>): (names: seq<string>)
    ensures |names| == |paths|
    ensures forall i :: 0 <= i < |paths| ==> names[i] == FileName(paths[i])
  {
    seq(|paths|, i requires 0 <= i < |paths| => FileName(paths[i]))
  }

  /** The names of the paths are exactly the file names of the paths. */
  lemma NamesCover(paths: seq<string>)
    ensures (set i | 0 <= i < |paths| :: Names(paths)[i]) == (set p | p in paths :: FileName(p))
  {
    var names := Names(paths);
    forall p | p in paths ensures FileName(p) in (set i | 0 <= i < |paths| :: names[i]) {
      var i :| 0 <= i < |paths| && paths[i] == p;
      assert names[i] == FileName(p);
    }
  }

  /** Entry i is the last one written under its name among the first k. */
  predicate LastAmong(names: seq<string>, k: nat, i: nat)
    requires k <= |names|
  {
    i < k && forall j :: i < j < k ==> names[j] != names[i]
  }

  /** The keys of a dictionary filled by `d[names[i]] = ...` for i = 0 .. k-1:
      one key per distinct name. */
  ghost predicate KeysAre<V>(names: seq<string>, k: nat, d: map<string, V>)
    requires k <= |names|
  {
    d.Keys == (set i | 0 <= i < k :: names[i])
  }

  lemma KeysStep<V>(names: seq<string>, k: nat, d: map<string, V>, v: V)
    requires k < |names|
    requires KeysAre(names, k, d)
    ensures KeysAre(names, k + 1, d[names[k] := v])
  {
    assert (set i | 0 <= i < k + 1 :: names[i]) == (set i | 0 <= i < k :: names[i]) + {names[k]};
  }

  /** The dictionary `d` after `d[names[i]] = value(names[i], i)` for
      i = 0 .. k-1, in order: one key per distinct name, holding the value
      written by the last entry with that name. */
  ghost predicate Stored<V>(names: seq<string>, k: nat, d: map<string, V>, value: (string, nat) -> V)
    requires k <= |names|
  {
    && KeysAre(names, k, d)
    && forall i :: 0 <= i < k && LastAmong(names, k, i) ==> d[names[i]] == value(names[i], i)
  }

  /** Writing entry k keeps the dictionary stored: it becomes the last
      writer of its name and every other last writer stays. */
  lemma StoreStep<V>(names: seq<string>, k: nat, d: map<string, V>, value: (string, nat) -> V)
    requires k < |names|
    requires Stored(names, k, d, value)
    ensures Stored(names, k + 1, d[names[k] := value(names[k], k)], value)
  {
    KeysStep(names, k, d, value(names[k], k));
    var d' := d[names[k] := value(names[k], k)];
    forall i | 0 <= i < k + 1 && LastAmong(names, k + 1, i)
      ensures d'[names[i]] == value(names[i], i)
    {
      if i < k {
        assert names[i] != names[k];
        assert LastAmong(names, k, i);
      }
    }
  }

  /** Over all paths, the keys are exactly the file names of the paths. */
  lemma KeysOfPaths<V>(paths: seq<string>, d: map<string, V>)
    requires KeysAre(Names(paths), |paths|, d)
    ensures d.Keys == (set p | p in paths :: FileName(p))
  {
    NamesCover(paths);
  }

  /** Of two paths with the same file name, the later one is the last writer
      when no later path has that name. */
  lemma LaterDuplicateIsLast(names: seq<string>, i: nat, j: nat)
    requires i < j < |names| && names[i] == names[j]
    requires forall k :: j < k < |names| ==> names[k] != names[j]
    ensures !LastAmong(names, |names|, i) && LastAmong(names, |names|, j)
  {
  }

  /** Over all entries, the value under a repeated name is the one of its
      last occurrence. */
  lemma LaterDuplicateWins<V>(names: seq<string>, d: map<string, V>, value: (string, nat) -> V, i: nat, j: nat)
    requires Stored(names, |names|, d, value)
    requires i < j < |names| && names[i] == names[j]
    requires forall k :: j < k < |names| ==> names[k] != names[j]
    ensures d[names[i]] == value(names[j], j)
  {
    LaterDuplicateIsLast(names, i, j);
  }
}
