# Molecule processing back end — verified model

This project models the deterministic core of three back-end modules of a
molecule-processing service, together with proofs of what that core promises.

- **The demo processors** (`process_quantum` and `process_classical`):
  - For each uploaded path, take the file name after the last backslash.
  - Derive a mock molecule from the name's length: atom count, bond count, and
    a five-element composition rendered as an HTML-subscripted formula.
  - Build a mock 3D scene, with atoms assigned round-robin from a five-symbol
    table and bonds to at most the next three atoms. The visualization also
    computes a formula from its atom counts but never displays it; the page
    shows the formula and counts its caller passes in.
  - Record an entry and a time per file name. A later duplicate overwrites an
    earlier one, and a failure is stored with time 0.
- **The SMILES ranking** (`generate_and_rank_isomers`, `process_smiles`):
  - Choose the candidate isomers.
  - Drop those whose 3D embedding or MMFF force field cannot be set up.
  - Sort the rest stably by energy and number them 1..n.
  - Shape the response, including the "Most Stable" / "Rank k" label, the count
    and the most stable entry. Failures become error records.
- **The 2D preview** (`generate_simple_2d_structure`): its success record and
  its three error branches.

Some things the model cannot compute are inputs instead:

- whether a step raised an exception (and its message);
- the time it took;
- the seeded random coin flips that choose bonds;
- everything RDKit reports.

Modules:

- `Options`: the option type.
- `Decimal`: decimal text of naturals and its inverse.
- `Formula`: formula text and its parser.
- `MoleculeSketch`: the atom/formula/bond part of
  `create_interactive_3d_visualization`, shared by both demo files.
- `MockFile`: file name, mock counts and composition, and the dictionary-filling
  rule.
- `QuantumDemo` and `ClassicalDemo`: the two processing loops.
- `IsomerRanking` and `SmilesProcessing`: the SMILES side.

The loops of the source are methods with loop invariants, each proved equal to a
specification function. The properties are proved about those functions.

## Model

| member | source | states |
|---|---|---|
| MoleculeSketch.Atoms | Backend/quantum_processor_demo.py:35-51 | the atom list for n iterations has exactly n entries |
| MoleculeSketch.AtomsAre | Backend/quantum_processor_demo.py:35-51 | atom i has id i and the symbol of table slot i % 5 of C, N, O, H, S |
| MoleculeSketch.GenerateAtoms | Backend/quantum_processor_demo.py:33-51 | the atom loop builds exactly the specified atom list and the symbol-count dictionary, each count bumped with `get(symbol, 0) + 1` |
| MoleculeSketch.Slot | Backend/quantum_processor_demo.py:25-31 | every table symbol has a slot below 5 holding it |
| MoleculeSketch.Bump | Backend/quantum_processor_demo.py:43 | bumping a count adds the symbol to the keys and nothing else |
| MoleculeSketch.BumpAt | Backend/quantum_processor_demo.py:43 | a bump raises the bumped symbol's count by one (from 0 when absent) and leaves every other count alone |
| MoleculeSketch.SlotCountClosedForm | Backend/quantum_processor_demo.py:35-36 | the number of indices below n in slot k is 0 when n ≤ k, else (n-1-k)/5 + 1 |
| MoleculeSketch.SlotCountPositive | Backend/quantum_processor_demo.py:35-36 | a slot reached by some index below n holds at least one atom |
| MoleculeSketch.SlotCountZero | Backend/quantum_processor_demo.py:35-36 | a slot k ≥ n is reached by no index below n |
| MoleculeSketch.SlotCountsTotal | Backend/quantum_processor_demo.py:35-43 | the five slot counts add up to the number of atoms |
| MoleculeSketch.TableSymbolsDistinct | Backend/quantum_processor_demo.py:25-31 | the five table symbols are pairwise distinct |
| MoleculeSketch.TallyKeys | Backend/quantum_processor_demo.py:35-43 | only table symbols ever become keys of the count dictionary |
| MoleculeSketch.TallySlot | Backend/quantum_processor_demo.py:35-43 | a slot's symbol is a key iff some index below n reaches the slot, and its count is the number of such indices |
| MoleculeSketch.TallyAt | Backend/quantum_processor_demo.py:35-43 | the same, with the count in closed form (n-1-k)/5 + 1, at least 1 |
| MoleculeSketch.TallySymbolsInOrder | Backend/quantum_processor_demo.py:67-72 | every counted symbol is one of C, H, N, O, S, so the loop over other symbols finds none |
| MoleculeSketch.TotalCountInOrder | Backend/quantum_processor_demo.py:58-64 | the counts of the ordered terms add up symbol by symbol, 0 for an absent symbol |
| MoleculeSketch.TallyTermsTotal | Backend/quantum_processor_demo.py:35-64 | the formula terms account for every atom exactly once: their counts sum to n |
| MoleculeSketch.TermsInOrderWellFormed | Backend/quantum_processor_demo.py:58-64 | with upper-case symbols and positive counts, the ordered terms are well formed |
| MoleculeSketch.SketchFormulaReadsBack | Backend/quantum_processor_demo.py:35-74 | the sketch's formula parses back to one term per present symbol in the order C, H, N, O, S, and the counts sum to n |
| MoleculeSketch.OrderedTerms | Backend/quantum_processor_demo.py:56-64 | the first formula loop yields the terms of the present symbols of C, H, N, O, S, in that order, absent ones skipped |
| MoleculeSketch.OtherSymbolTerms | Backend/quantum_processor_demo.py:66-72 | the second loop visits each symbol outside C, H, N, O, S exactly once, and yields nothing when all symbols are in that order |
| MoleculeSketch.BuildFormula | Backend/quantum_processor_demo.py:53-74 | the joined formula is the rendering of the ordered terms followed by the other symbols' terms, and just the ordered terms when there are no others |
| MoleculeSketch.RowBondsAre | Backend/quantum_processor_demo.py:78-80 | the inner loop bonds i to exactly the j in i+1 .. end-1 whose coin came up, in increasing order |
| MoleculeSketch.BondsAre | Backend/quantum_processor_demo.py:77-80 | after k outer iterations, the bonds are exactly the windowed pairs from atoms below k whose coin came up, strictly increasing |
| MoleculeSketch.BondsInWindow | Backend/quantum_processor_demo.py:77-80 | over all atoms, every bond satisfies from < to < min(from+4, n), every such pair whose coin came up is bonded, and the list is strictly increasing |
| MoleculeSketch.NoDuplicateBonds | Backend/quantum_processor_demo.py:77-80 | no pair is bonded twice, whatever the coin flips |
| MoleculeSketch.GenerateBonds | Backend/quantum_processor_demo.py:77-80 | the nested bond loops produce exactly the specified bond list |
| MoleculeSketch.Sketch | Backend/quantum_processor_demo.py:19-80 | the atoms, formula and bonds of the visualization, for the requested atom count (20 when none is given) |
| MoleculeSketch.SceneProperties | Backend/quantum_processor_demo.py:19-80 | n atoms with the round-robin symbols, bonds exactly the windowed coin pairs with none twice, and a formula reading back as ordered counts summing to n |
| Formula.RenderAppend | Backend/quantum_processor_demo.py:74 | joining the parts of two term lists is the concatenation of their texts |
| Formula.RenderCons | Backend/quantum_processor_demo.py:74 | rendering a term ahead of a list is that term's text ahead of the list's text |
| Formula.TermsInOrderSnoc | Backend/quantum_processor_demo.py:58-64 | one more symbol in the order adds its term at the end exactly when it is counted |
| Formula.DigitRun | Backend/quantum_processor_demo.py:64 | the leading digit run of a text is a prefix made of digits and is maximal |
| Formula.DigitRunOfDigits | Backend/quantum_processor_demo.py:64 | a count's digits followed by `</sub>` are read as exactly those digits |
| Formula.RenderStartsWithSymbol | Backend/quantum_processor_demo.py:58-64 | well-formed formula text is empty or starts with an element symbol |
| Formula.ParseBareTerm | Backend/quantum_processor_demo.py:61-62 | a count of 1 written as the bare symbol parses back as count 1 |
| Formula.ParseSubscriptTerm | Backend/quantum_processor_demo.py:63-64 | `X<sub>count</sub>` parses back to symbol X with that count |
| Formula.ParseRender | Backend/quantum_processor_demo.py:56-74 | parsing the rendering of well-formed terms gives back exactly those terms, counts included |
| Formula.RenderInjective | Backend/quantum_processor_demo.py:56-74 | two well-formed term lists with the same formula text are equal |
| Decimal.DigitChar | Backend/quantum_processor_demo.py:64 | a digit value below 10 is written as a decimal digit character |
| Decimal.DigitRoundTrip | Backend/quantum_processor_demo.py:64 | a digit character reads back as its value |
| Decimal.NatToString | Backend/quantum_processor_demo.py:64 | the text of a count is non-empty, all digits, with no leading zero unless the count is 0 |
| Decimal.ParseNatToString | Backend/quantum_processor_demo.py:64 | the decimal text of n reads back as n |
| Decimal.NatToStringInjective | Backend/quantum_processor_demo.py:64 | distinct counts get distinct texts |
| MockFile.FileName | Backend/quantum_processor_demo.py:596 | the file name is a suffix of the path with no backslash, and it is preceded by a backslash whenever it is shorter than the path |
| MockFile.FileNameOfJoin | Backend/quantum_processor_demo.py:596 | `dir\name` yields name for any backslash-free name |
| MockFile.FileNameOfBareName | Backend/quantum_processor_demo.py:596 | a path without a backslash is its own file name |
| MockFile.MockAtomCount | Backend/quantum_processor_demo.py:610 | the mock atom count is 20 + 2·len(filename), so at least 20 |
| MockFile.MockBondCount | Backend/quantum_processor_demo.py:611 | defines the mock bond count as the atom count minus one; stated with the atom count and formula in `MockInfoHolds` |
| MockFile.CompositionBounds | Backend/quantum_processor_demo.py:616-621 | whatever the raw shares, each of the five counts is at least 1 and together they reach at least the total |
| MockFile.ShareBounds | Backend/quantum_processor_demo.py:617-620 | a truncated share of a non-negative total lies between 0 and total·num/den, and is at least 1 once total·num ≥ den |
| MockFile.MockCompositionExact | Backend/quantum_processor_demo.py:616-621 | from ten atoms on, the five counts add up to exactly the total |
| MockFile.ShareTextOfTerm | Backend/quantum_processor_demo.py:625-648 | for a count of at least 1, an element's part is the bare symbol or `X<sub>count</sub>` as for any term |
| MockFile.CompositionFormulaIsRender | Backend/quantum_processor_demo.py:623-650 | with all counts at least 1, the mock formula is the rendering of the C, H, N, O, S terms in that order |
| MockFile.MockFormulaReadsBack | Backend/quantum_processor_demo.py:616-650 | every file's mock formula parses back to exactly C, H, N, O, S in that order, each at least 1, summing to the atom count |
| MockFile.MockInfoHolds | Backend/quantum_processor_demo.py:610-650 | a file's molecule summary has 20 + 2·len atoms, one bond fewer, and a formula of all five elements summing to the atoms |
| MockFile.Names | Backend/quantum_processor_demo.py:595-596 | defines the file names of the paths, in path order; characterised by `NamesCover` and `KeysOfPaths` |
| MockFile.NamesCover | Backend/quantum_processor_demo.py:595-596 | the names at the path positions are exactly the file names of the paths |
| MockFile.KeysStep | Backend/quantum_processor_demo.py:667 | writing one more path's name keeps the keys equal to the names written so far |
| MockFile.StoreStep | Backend/quantum_processor_demo.py:667-697 | writing the k-th entry keeps each key holding the value of its last writer |
| MockFile.KeysOfPaths | Backend/quantum_processor_demo.py:595-697 | after all paths, the dictionary's keys are exactly the file names of the paths |
| MockFile.LaterDuplicateIsLast | Backend/quantum_processor_demo.py:667-697 | of two paths with the same name, the later one is the last writer |
| MockFile.LaterDuplicateWins | Backend/quantum_processor_demo.py:667-697 | the value under a repeated name is the one written by its last occurrence |
| QuantumDemo.ProcessFile | Backend/quantum_processor_demo.py:599-697 | the `try` body stores the processed entry with the elapsed time, or `{error}` with time 0 when processing raised |
| QuantumDemo.StorePath | Backend/quantum_processor_demo.py:595-697 | one loop iteration keeps both dictionaries holding, per name, the entry and time of its last path |
| QuantumDemo.ProcessQuantum | Backend/quantum_processor_demo.py:588-700 | results and times have the same keys, exactly the file names, each holding the entry and time of the last path with that name |
| QuantumDemo.LaterDuplicateOverwrites | Backend/quantum_processor_demo.py:667-697 | a later path with the same file name overwrites both the entry and the time |
| QuantumDemo.QuantumEntryFacts | Backend/quantum_processor_demo.py:610-697 | failure iff raised, then with its message and time 0; otherwise the elapsed time, the mock molecule summary, title "Quantum: name", one atom per mock atom and windowed bonds |
| ClassicalDemo.ProcessFile | Backend/classical_processor_demo.py:499-585 | the `try` body stores the processed entry with the elapsed time, or `{error}` with time 0 when processing raised |
| ClassicalDemo.StorePath | Backend/classical_processor_demo.py:495-585 | one loop iteration keeps both dictionaries holding, per name, the entry and time of its last path |
| ClassicalDemo.ProcessClassical | Backend/classical_processor_demo.py:488-587 | results and times have the same keys, exactly the file names (last backslash segment), each holding the entry and time of the last path with that name |
| ClassicalDemo.LaterDuplicateOverwrites | Backend/classical_processor_demo.py:562-585 | a later path with the same file name overwrites both the entry and the time |
| ClassicalDemo.ClassicalEntryFacts | Backend/classical_processor_demo.py:507-585 | failure iff raised, then with its message and time 0; otherwise 20 + 2·len atoms, one bond fewer, a formula of C, H, N, O, S each at least 1 summing to the atoms (lines 513-547), title "Classical: name", and windowed bonds (lines 19-50, 76-79) |
| IsomerRanking.Candidates | Backend/smiles_processor.py:40-46 | there is always at least one candidate, and they are the enumerated isomers when there are any |
| IsomerRanking.SurvivorsAppend | Backend/smiles_processor.py:52-92 | filtering works piecewise, so survivors keep their enumeration order (a subsequence) |
| IsomerRanking.SurvivorsAre | Backend/smiles_processor.py:57-97 | a result is kept iff its isomer embeds and gets MMFF properties and a force field; no more results than candidates; none iff no isomer survives |
| IsomerRanking.ScoreCandidates | Backend/smiles_processor.py:50-92 | the scoring loop with its `continue`s yields exactly the survivors in order |
| IsomerRanking.WithEnergyCons | Backend/smiles_processor.py:99 | the entries of a given energy in a list with a head are the head (if it has that energy) followed by those in the tail |
| IsomerRanking.InsertByEnergyPermutation | Backend/smiles_processor.py:99 | inserting adds exactly the one entry |
| IsomerRanking.ConsOrdered | Backend/smiles_processor.py:99 | an entry no higher in energy than an ordered list keeps it ordered when placed ahead |
| IsomerRanking.InsertByEnergyOrdered | Backend/smiles_processor.py:99 | inserting into an energy-ordered list keeps it ordered |
| IsomerRanking.InsertByEnergyStable | Backend/smiles_processor.py:99 | an inserted entry goes ahead of the entries of equal energy |
| IsomerRanking.SortByEnergyCorrect | Backend/smiles_processor.py:99 | the sort is ordered by non-decreasing energy, a permutation, and stable: equal energies keep their order |
| IsomerRanking.WithRanks | Backend/smiles_processor.py:102-103 | defines the sorted results with ranks 1..n attached; `AssignRanks` is proved equal to it and `RankingProperties` states its ranks and order |
| IsomerRanking.AssignRanks | Backend/smiles_processor.py:102-103 | the ranking loop gives the entry at position i rank i + 1 and leaves it otherwise unchanged |
| IsomerRanking.Unranked | Backend/smiles_processor.py:102-103 | defines the ranked entries with their ranks removed; `RankingProperties` uses it to state that the ranked list is exactly the sorted survivors |
| IsomerRanking.GenerateAndRankIsomers | Backend/smiles_processor.py:11-105 | the whole function returns the specified ranking: None for unparsable input or no survivor, else the sorted survivors ranked |
| IsomerRanking.RankingProperties | Backend/smiles_processor.py:30-105 | None iff unparsable or no candidate survives; otherwise non-empty, ranks 1..n in list order, non-decreasing energy, exactly the survivors, stable for equal energies |
| SmilesProcessing.StabilityLabelMeaning | Backend/smiles_processor.py:502 | the label is "Most Stable" iff the rank is 1; any other rank is "Rank " followed by digits that read back as the rank |
| SmilesProcessing.StabilityLabelInjective | Backend/smiles_processor.py:502 | different ranks get different labels |
| SmilesProcessing.ShapeIsomers | Backend/smiles_processor.py:496-505 | the response list has one view per ranked isomer, in order, each with its rank, SMILES, energy, label, page and image |
| SmilesProcessing.Views | Backend/smiles_processor.py:496-505 | defines the response entries, one `ViewOf` per ranked isomer; their contents are `ShapeIsomers` and `ResponseProperties` |
| SmilesProcessing.ProcessSmiles | Backend/smiles_processor.py:478-523 | the response is the exception's message, the fixed message when no isomers come back, or the success record built from the views |
| SmilesProcessing.ResponseProperties | Backend/smiles_processor.py:484-523 | an exception gives its message; otherwise failure iff no ranking, with the fixed message; success has the input SMILES, total_isomers = length ≥ 1, most_stable = first entry, rank i+1 and its label at position i, exactly one "Most Stable", non-decreasing energy |
| SmilesProcessing.Simple2dStructure | Backend/smiles_processor.py:440-476 | success iff the text parses, the image exists and the descriptors are computed, then echoing the input, image, weight, formula, atom count and bond count; "Invalid SMILES string provided" for an unparsable text, "Could not generate 2D structure" for a missing image, an exception's message otherwise |
| MoleculeSketch.AtomsRequested | Backend/quantum_processor_demo.py:20 | defines the requested atom count: the caller's `num_atoms`, or 20 when none is given (used by `SceneProperties`) |
| MoleculeSketch.SlotCount | Backend/quantum_processor_demo.py:35-36 | defines the number of indices below n with i % 5 == k; closed form in `SlotCountClosedForm` |
| MoleculeSketch.Tally | Backend/quantum_processor_demo.py:34-43 | defines the symbol-count dictionary after n atoms, one `Bump` per atom; characterised by `TallySlot`, `TallyAt` and `TallyKeys` |
| MoleculeSketch.RowBonds | Backend/quantum_processor_demo.py:78-80 | defines the bonds of the inner loop for atom i; characterised by `RowBondsAre` |
| MoleculeSketch.Bonds | Backend/quantum_processor_demo.py:77-80 | defines the bonds after k outer iterations over n atoms; characterised by `BondsAre` and `BondsInWindow` |
| MoleculeSketch.SceneOf | Backend/quantum_processor_demo.py:19-80 | defines the scene for a file: the atoms, bonds and computed formula for the requested count; its properties are `SceneProperties` |
| Formula.TermText | Backend/quantum_processor_demo.py:61-64 | defines one term's text: the bare symbol for count 1, else `X<sub>count</sub>`; read back by `ParseBareTerm` and `ParseSubscriptTerm` |
| Formula.Render | Backend/quantum_processor_demo.py:74 | defines the `''.join` of the term texts in list order; inverted by `ParseRender` |
| Formula.TermsInOrder | Backend/quantum_processor_demo.py:58-64 | defines the terms of the counted symbols of an order, in that order, absent ones skipped; extended by `TermsInOrderSnoc` |
| MockFile.TruncatedShare | Backend/quantum_processor_demo.py:617-620 | defines Python's `int()` of total·num/den, truncated toward zero; bounded by `ShareBounds` |
| MockFile.CompositionFromShares | Backend/quantum_processor_demo.py:616-621 | defines the counts from raw shares: each raised to at least 1, sulfur the remainder raised to at least 1; bounded by `CompositionBounds` |
| MockFile.MockComposition | Backend/quantum_processor_demo.py:616-621 | defines the composition from the 40, 30, 15 and 10 per cent shares; exact sum in `MockCompositionExact` |
| MockFile.ShareText | Backend/quantum_processor_demo.py:625-648 | defines one element's `if`/`elif` part: bare symbol for 1, subscripted count above 1, nothing otherwise; equated to `TermText` by `ShareTextOfTerm` |
| MockFile.CompositionFormula | Backend/quantum_processor_demo.py:623-650 | defines the mock formula, the parts joined in the order C, H, N, O, S; read back by `MockFormulaReadsBack` |
| MockFile.MockInfo | Backend/quantum_processor_demo.py:610-650 | defines a file's molecule summary: atom count, bond count and mock formula; its facts are `MockInfoHolds` |
| QuantumDemo.Title | Backend/quantum_processor_demo.py:655 | defines the page title "Quantum: " followed by the file name |
| QuantumDemo.QuantumEntry | Backend/quantum_processor_demo.py:599-697 | defines the entry written for a file: `Failed` with the exception's message, or the processed record; its facts are `QuantumEntryFacts` |
| QuantumDemo.QuantumTime | Backend/quantum_processor_demo.py:687-697 | defines the time written for a file: the elapsed time, or 0 after an exception |
| ClassicalDemo.Title | Backend/classical_processor_demo.py:557 | defines the page title "Classical: " followed by the file name |
| ClassicalDemo.ClassicalEntry | Backend/classical_processor_demo.py:499-585 | defines the entry written for a file: `Failed` with the exception's message, or the processed record; its facts are `ClassicalEntryFacts` |
| ClassicalDemo.ClassicalTime | Backend/classical_processor_demo.py:575-585 | defines the time written for a file: the elapsed time, or 0 after an exception |
| IsomerRanking.Survives | Backend/smiles_processor.py:57-70 | defines when an isomer is kept: embedding status 0, MMFF properties and a force field |
| IsomerRanking.CandidateOf | Backend/smiles_processor.py:84-90 | defines the result entry appended for a kept isomer |
| IsomerRanking.Survivors | Backend/smiles_processor.py:50-92 | defines the list of kept entries in enumeration order; characterised by `SurvivorsAre` and `SurvivorsAppend` |
| IsomerRanking.InsertByEnergy | Backend/smiles_processor.py:99 | defines insertion ahead of the first entry of no lower energy; see `InsertByEnergyOrdered`, `InsertByEnergyPermutation`, `InsertByEnergyStable` |
| IsomerRanking.SortByEnergy | Backend/smiles_processor.py:99 | defines `sorted(results, key=energy)` as an insertion sort; proved ordered, a permutation and stable by `SortByEnergyCorrect` |
| IsomerRanking.Ranking | Backend/smiles_processor.py:30-105 | defines what `generate_and_rank_isomers` returns; its properties are `RankingProperties` |
| SmilesProcessing.StabilityLabel | Backend/smiles_processor.py:502 | defines the label: "Most Stable" for rank 1, else "Rank " and the decimal rank; its meaning is `StabilityLabelMeaning` |
| SmilesProcessing.ViewOf | Backend/smiles_processor.py:498-505 | defines the response entry of one ranked isomer |
| SmilesProcessing.Summary | Backend/smiles_processor.py:509-516 | defines the success record: input, count, time, entries, and the first entry as the most stable |
| SmilesProcessing.Response | Backend/smiles_processor.py:478-523 | defines what `process_smiles` returns; its properties are `ResponseProperties` |

## Left out

- The HTML, CSS and JavaScript page text, the JSON and base64 encoding of it, and the atoms' colours and radii are not modelled. The `Scene` keeps only the file name, title, atoms (id and symbol), bonds and formula.
- The md5 seed, `random.seed`, and the random coordinates are not modelled. The bond coin flips (`random.random() > 0.3`) are an arbitrary input `coin(i, j)` per file, so every bond property holds for all outcomes.
- `time.time`, `time.sleep` and `print` are not modelled. A file's elapsed time is an input.
- The NumPy Dirichlet `mock_quantum_simulation` and the `quantum_output` field it fills are not modelled (random floats).
- The mock molecular weight (`150.0 + len·10.5`) is not modelled (a float). The RDKit descriptor weight is an input.
- The page's "Atoms", "Bonds", "Chemical Formula" and "Molecular Weight" lines print the values the caller passes in, not the scene's own atoms, bonds or formula. The page text is not modelled, so that link is not stated. The formula the visualization computes (`Scene.formula`) is never displayed.
- Python dictionaries keep the insertion order of the file names; the model's `map` results do not. None of the modelled code relies on that order.
- MockFile.MockComposition: `int(total * 0.4)` and the other shares are computed as exact truncating integer division (total·4/10 and so on). IEEE rounding of the float product is not modelled. MockFile.CompositionBounds holds for arbitrary shares, so its guarantee does not depend on that choice.
- MoleculeSketch.OtherSymbolTerms: Python visits dictionary keys in insertion order; the model visits them in an unspecified order. Only the set of symbols visited (each once) is stated. No symbol ever reaches that loop.
- All RDKit calls are inputs rather than computations: parsing, stereoisomer enumeration, adding hydrogens, embedding, MMFF, minimisation, drawing and descriptors. Their results are given by `Chemistry`, `IsomerOutcome` and `Parse`, and energies are reals with no NaN.
- `create_3d_visualization` and `generate_2d_structure` of the SMILES module are not modelled: they render HTML and images. Their results are inputs.
- Exceptions are inputs. Whether a file's processing raised, whether the ranking raised, and each message are given.
- IsomerRanking.AssignRanks: the source adds `'rank'` to each result dictionary in place. The model builds new ranked records, so aliasing of those dictionaries is not captured.
- The front end's session and point-balance logic is not part of this model; none of the modelled files contains it.
