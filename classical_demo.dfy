/** `process_classical` and its visualization: the classical demo processor. */
module ClassicalDemo {
  import opened Options
  import opened Formula
  import opened MoleculeSketch
  import opened MockFile

  const MethodName: string := "Classical RDKit Simulation (Demo Mode)"

  /** One entry of `classical_results`: a processed file or the error raised
      while processing it. */
  datatype ClassicalResult =
    | Processed(processingTime: real, visualization: Scene, moleculeInfo: MoleculeInfo,
                methodName: string)
    | Failed(error: string)

  function Title(filename: string): string {
    "Classical: " + filename
  }

  /** The entry written for a file, given whether its processing raised and
      how long it took. */
  function ClassicalEntry(filename: string, raised: Option<string>, elapsed: real,
                          coin: string -> ((nat, nat) -> bool)): ClassicalResult
  {
    match raised
    case Some(e) => Failed(e)
    case None =>
      var count := MockAtomCount(filename);
      Processed(elapsed, SceneOf(filename, Title(filename), Some(count), coin(filename)),
                MockInfo(filename), MethodName)
  }

  /** The time written for a file: 0 for a failure. */
  function ClassicalTime(raised: Option<string>, elapsed: real): real {
    if raised.Some? then 0.0 else elapsed
  }

  /** The body of the `try` block for one file: the mock molecule, its
      formula and visualization, and the entry and time to store. */
  method ProcessFile(filename: string, raised: Option<string>, elapsed: real,
                     coin: string -> ((nat, nat) -> bool))
    returns (entry: ClassicalResult, time: real)
    ensures entry == ClassicalEntry(filename, raised, elapsed, coin)
    ensures time == ClassicalTime(raised, elapsed)
  {
    match raised {
      case Some(e) =>
        entry, time := Failed(e), 0.0;
      case None =>
        var atomCount := MockAtomCount(filename);
        var bondCount := atomCount - 1;
        var formula := CompositionFormula(MockComposition(atomCount));
        var info := MoleculeInfo(atomCount, bondCount, formula);
        var visualization := Sketch(filename, Title(filename), Some(atomCount), coin(filename));
        assert info == MockInfo(filename);
        entry, time := Processed(elapsed, visualization, info, MethodName), elapsed;
    }
  }

  /** The two dictionaries after the first k paths: one key per distinct file
      name, holding the entry and time of the last path with that name. */
  ghost predicate Filled(paths: seq<string>, raised: nat -> Option<string>, elapsed: nat -> real,
                         coin: string -> ((nat, nat) -> bool), k: nat,
                         results: map<string, ClassicalResult>, times: map<string, real>)
    requires k <= |paths|
  {
    && Stored(Names(paths), k, results, (name, i) => ClassicalEntry(name, raised(i), elapsed(i), coin))
    && Stored(Names(paths), k, times, (name, i) => ClassicalTime(raised(i), elapsed(i)))
  }

  /** One iteration of the loop over paths: process the k-th path and write
      its entry and time under its file name. */
  method StorePath(paths: seq<string>, raised: nat -> Option<string>, elapsed: nat -> real,
                   coin: string -> ((nat, nat) -> bool), k: nat,
                   results: map<string, ClassicalResult>, times: map<string, real>)
    returns (results': map<string, ClassicalResult>, times': map<string, real>)
    requires k < |paths|
    requires Filled(paths, raised, elapsed, coin, k, results, times)
    ensures Filled(paths, raised, elapsed, coin, k + 1, results', times')
  {
    var filename := FileName(paths[k]);
    var entry, time := ProcessFile(filename, raised(k), elapsed(k), coin);
    StoreStep(Names(paths), k, results, (name, i) => ClassicalEntry(name, raised(i), elapsed(i), coin));
    StoreStep(Names(paths), k, times, (name, i) => ClassicalTime(raised(i), elapsed(i)));
    results' := results[filename := entry];
    times' := times[filename := time];
  }

  /** `process_classical`: for each path, in order, write the file's entry and
      time under its file name. Whether processing the i-th path raises, and
      the time it takes, are inputs; so are the coin flips of each file's
      seeded random generator. */
  method ProcessClassical(paths: seq<string>, raised: nat -> Option<string>, elapsed: nat -> real,
                          coin: string -> ((nat, nat) -> bool))
    returns (results: map<string, ClassicalResult>, times: map<string, real>)
    ensures results.Keys == times.Keys == (set p | p in paths :: FileName(p))
    ensures Filled(paths, raised, elapsed, coin, |paths|, results, times)
  {
    results, times := map[], map[];
    for k := 0 to |paths|
      invariant Filled(paths, raised, elapsed, coin, k, results, times)
    {
      results, times := StorePath(paths, raised, elapsed, coin, k, results, times);
    }
    KeysOfPaths(paths, results);
    KeysOfPaths(paths, times);
  }

  /** A later path with the same file name overwrites the earlier entry. */
  lemma LaterDuplicateOverwrites(paths: seq<string>, raised: nat -> Option<string>, elapsed: nat -> real,
                                 coin: string -> ((nat, nat) -> bool),
                                 results: map<string, ClassicalResult>, times: map<string, real>, i: nat, j: nat)
    requires Filled(paths, raised, elapsed, coin, |paths|, results, times)
    requires i < j < |paths| && FileName(paths[i]) == FileName(paths[j])
    requires forall k :: j < k < |paths| ==> FileName(paths[k]) != FileName(paths[j])
    ensures results[FileName(paths[i])] == ClassicalEntry(FileName(paths[j]), raised(j), elapsed(j), coin)
    ensures times[FileName(paths[i])] == ClassicalTime(raised(j), elapsed(j))
  {
    var names := Names(paths);
    LaterDuplicateWins(names, results, (name, i) => ClassicalEntry(name, raised(i), elapsed(i), coin), i, j);
    LaterDuplicateWins(names, times, (name, i) => ClassicalTime(raised(i), elapsed(i)), i, j);
  }

  /** A processed entry carries the mock molecule of its file: 20 + 2 atoms
      per name character, one bond fewer, a formula naming C, H, N, O and S
      in that order with counts adding up to the atom count, and a scene
      with that many atoms whose bonds stay inside the three-atom window;
      a failed entry is written with time 0. */
  lemma ClassicalEntryFacts(filename: string, raised: Option<string>, elapsed: real,
                            coin: string -> ((nat, nat) -> bool))
    ensures var r := ClassicalEntry(filename, raised, elapsed, coin);
            && (r.Failed? <==> raised.Some?)
            && (r.Failed? ==> r.error == raised.value && ClassicalTime(raised, elapsed) == 0.0)
            && (r.Processed? ==>
                  && r.processingTime == ClassicalTime(raised, elapsed)
                  && r.moleculeInfo == MockInfo(filename)
                  && MockInfoFacts(filename)
                  && r.visualization.title == "Classical: " + filename
                  && |r.visualization.atoms| == r.moleculeInfo.numAtoms
                  && (forall b :: b in r.visualization.bonds ==> InWindow(b, r.moleculeInfo.numAtoms))
                  && StrictlyOrdered(r.visualization.bonds))
  {
    if raised.None? {
      var count := MockAtomCount(filename);
      MockInfoHolds(filename);
      SceneProperties(filename, Title(filename), Some(count), coin(filename));
    }
  }
}
