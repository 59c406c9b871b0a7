# nmrfx core logic in Dafny

This project models the self-contained logic found throughout nmrfx, a
program for processing and analysing NMR spectra, and proves properties of
that logic. The model follows the program's structure, with one Dafny module
per source file:

- **Superpose** (`superpose.dfy`): the ensemble-superposition helper script. It covers the median, the residue-selection mini-language (`"A: 2-5, 10; B: 3"`), argument checks, the choice of the representative model (lowest mean RMSD over the pair results), the scoring of residues by backbone B-factor, the two-state run scan that turns scores below 2 × median into core ranges, and the selection and output-naming steps.
- **Util** (`util_match.dfy`): the Tcl-style glob matcher `stringMatch`, with `*`, `?`, `[set]`, `[a-z]` and `\`, plus the NEF wildcard matcher `nefMatch`.
- **PeakLists** (`peak_lists.dfy`): a peak list as a class. It covers re-indexing, the id map, compressing, renumbering and removal, search-dimension bookkeeping, peak-dimension specifiers, the injective matching of peak dimensions to dataset dimensions, and folding a shift into a window.
- **Resonances** (`resonances.dfy`): an atom resonance. It covers its names, its list of peak dimensions (add, remove and merge without duplicates), the peak counts, the shift mean and variance, and the NMR-STAR line.
- **GroupIndex** (`group_index.dfy`): a dataset group index. It covers value equality and hashing, the index string, the skip string, and expansion into its 2^n sub-indices.
- **AcqOrder**, **RS2D** and **JCAMP** (`acq_order.dfy`, `rs2d.dfy`, `jcamp.dfy`):
  - The acquisition-order setter and getter (setAcqOrder, getAcqOrder, resetAcqOrder) that the RS2D and JCAMP readers carry as identical code, and RS2D's short-form decoder getAcqOrderShort.
  - RS2D's lazily filled parameter caches, its phase-mode table, its label names and its dataset paths.
  - JCAMP's decision tables from `$FnMODE` / `$AQ_mod` to FT type and coefficients, its temperature and sign conventions, and the merging of its parameter names.
- **ScanGrouping**, **AnalystScanTable** and **ControlsScanTable** (`scan_grouping.dfy`, `scan_table.dfy`, `controls_scan_table.dfy`):
  - The two scan tables share the grouping logic.
  - Each grouping column's distinct values are numbered in sorted order.
  - An item's group is the mixed-radix number over those values.
  - Columns are typed as integer, double or string, and unnamed columns are named `V.<n>`.
  - Loaded items are sorted by date and their times made relative.
- **RefPanel** (`refmanager.dfy`): the reference panel's input filters and converters, the REF value, the Python reference-line writer and its reader, and the acquisition-order choices.
- **NMRStarReader** (`nmrstar.dfy`): the row rules of the NMR-STAR 3 reader. It covers bond orders, peak flags, grouping coupling and transition rows into runs, default identifiers and bounds, peak-list guards, conformer tracking and the command-line argument check.
- **ChartAxis** and **Annotations** (`axis.dfy`, `anno_rectangle.dfy`):
  - The axis's value-to-pixel mapping and its inverse, its bounds and its automatic range.
  - The rectangle annotation's hit tests, handle-dependent moves and pixel normalisation.
- **KeyBindings** (`key_bindings.dfy`): the key-sequence registry with first-character placeholders, and the dispatch of typed keys.
- **AngleBoundaries** (`angle_boundary.dfy`): dihedral-angle bound validation, the conversion to radians, and the shared atom-to-property registry.
- **TableCopy** (`table_utils.dfy`): the tab-separated clipboard writer.
- **DatasetCompare** (`dataset_compare.dfy`): first-mismatch comparison of dataset files as bytes and as 4-byte floats.
- **StorageResize** (`storage_resizer.dfy`): copying an n-dimensional box of points into a new, zeroed storage.

Shared helpers: `wrappers.dfy` (Option and Result), `text.dfy` (string
splitting, joining, trimming and number formatting and parsing as the
program does them) and `seqs.dfy` (sequence helpers).

Java `double` values are modelled as Dafny `real`. Java `int` arithmetic is
wrapped to 32 bits explicitly (`Text.Wrap32`) in hash codes, in the scan
tables' group numbers, group size and next `V.<n>` column number, and in the
group index's expanded indices and counter size. Each
collaborator outside the model (the molecule, the superposition engine,
file and parameter readers, the key monitor) is a parameter of the members
that use it.

Where the documented behaviour and the code differ, the model follows the
code:

- `Util.stringMatch` with an unterminated bracket whose listed character
  matched succeeds. For example, `"[ab"` matches `"a"`, because the code
  moves to the last pattern character and advances both indices. With no
  match in the listed set, it fails.

## Model

| member | source | states |
|---|---|---|
| Superpose.Median | src/main/resources/super.py:11-21 | sorts the caller's list in place (sorted and a permutation of the old contents) and returns the median of the sorted values: None for none, the element for one, the mean of positions n/2 and (n-1)/2 otherwise |
| Superpose.SortInPlace | src/main/resources/super.py:12 | list.sort(): the list ends up sorted and a permutation of its old contents |
| Superpose.SortValues | src/main/resources/super.py:12 | the sorted order of a list of values: same length, sorted, same multiset |
| Superpose.SortedUnique | src/main/resources/super.py:12 | two sorted orderings of the same values are equal, so the sorted order is determined by the values |
| Superpose.MedianSplitsValues | src/main/resources/super.py:13-21 | the median is at least every value up to position (n-1)/2 and at most every value from n/2 on |
| Superpose.MedianOrderIndependent | src/main/resources/super.py:11-21 | the median does not depend on the order of the input values |
| Superpose.MedianOdd | src/main/resources/super.py:18-21 | for an odd count the median is the middle element |
| Superpose.RangeNames | src/main/resources/super.py:121-125 | the names of range(first, last+1): last-first+1 names, the i-th being `chain.(first+i)` |
| Superpose.MakeResListRange | src/main/resources/super.py:121-125 | `a-b` yields `C.a` … `C.b` inclusive, in order |
| Superpose.MakeResListCommaList | src/main/resources/super.py:126-128 | a comma list of non-empty values yields each value stripped and chain-prefixed, in order |
| Superpose.Prefixed | src/main/resources/super.py:128 | one name per token, each the stripped token prefixed with its chain |
| Superpose.MakeResListBareNumber | src/main/resources/super.py:102-130 | a bare number (no `,`, no `-`) is an error: resList is never bound |
| Superpose.GetResListConcatenates | src/main/resources/super.py:85-92 | `p1; p2; …` gives the names of each `chain: spec` part concatenated in input order |
| Superpose.GetResListDefaultsToChainA | src/main/resources/super.py:98-99 | without `;` or `:` the residues are named in chain A |
| Superpose.GetResListExplicitChain | src/main/resources/super.py:94-97 | a single `chain: spec` names the residues of the stripped spec in the stripped chain |
| Superpose.PathJoin | src/main/resources/super.py:140 | os.path.join: an absolute second part replaces the first; otherwise the result starts with the first part and ends with the second |
| Superpose.PathSplit | src/main/resources/super.py:266 | os.path.split: the tail holds no slash |
| Superpose.PathSplitDirectory | src/main/resources/super.py:266 | the head is the path up to its last slash, that slash dropped unless it is the only leading one; the tail is the rest |
| Superpose.MakeFileList | src/main/resources/super.py:132-144 | `*` gives the final*.pdb listing; any other argument gives paths under `final/` (or absolute ones); without a comma, none for "" and one file otherwise |
| Superpose.ParseArgs | src/main/resources/super.py:38-82 | a result never has an excluded residue or atom that is also included; such an overlap, or a missing -f or -F option, aborts; the reference file is appended last |
| Superpose.AddSorted | src/main/resources/super.py:151 | TreeSet.add: the sequence stays strictly increasing and gains exactly the new value |
| Superpose.ModelTree | src/main/resources/super.py:147-151 | the TreeSet of structure numbers: strictly increasing, holding exactly the numbers other than 0 |
| Superpose.SumPairResults | src/main/resources/super.py:159-169 | the total rms of all pair results, and per fixed model exactly the sum of its rms values, keyed only by models that occur as iFix |
| Superpose.SelectMinimum | src/main/resources/super.py:170-176 | over the models in ascending order, fails on a model without pair results or on nFiles-1 == 0; otherwise returns the first model whose mean is strictly smallest and below 1e6, or none |
| Superpose.MinimumStep | src/main/resources/super.py:170-176 | taking the next model keeps the first strictly smallest mean below the bound among the models seen |
| Superpose.MinimumFound | src/main/resources/super.py:170-176 | after all models, the selection is the first model with the smallest mean when that mean is below 1e6, and none exists otherwise |
| Superpose.FindRepresentative | src/main/resources/super.py:146-178 | succeeds exactly when every model has pair results, there is not exactly one model, there are pair results and some mean is below 1e6; then the representative has the least mean, no lower-numbered model ties it, and avgRMS is the total over the number of pair results |
| Superpose.SumFixWithoutFix | src/main/resources/super.py:167-169 | a model that is never iFix has sum 0 |
| Superpose.ScoredResiduesQualify | src/main/resources/super.py:193-211 | every scored residue is selected, has a counting atom, and scores the mean B-factor of its counting atoms |
| Superpose.QualifyingResiduesScored | src/main/resources/super.py:193-211 | every selected residue with a counting atom is scored with that mean |
| Superpose.RunStart | src/main/resources/super.py:225-229 | the start of the run of core residues containing position k: all core from it to k, and the one before is not core |
| Superpose.CoreScan | src/main/resources/super.py:214-238 | the two-state scan emits exactly CoreUpTo over all scored residues |
| Superpose.CoreRangesAreRuns | src/main/resources/super.py:221-235 | each emitted range runs from the start of a run of residues scoring below twice the median to a residue of that run |
| Superpose.EmittedIsRun | src/main/resources/super.py:221-235 | what one step of the scan emits, if anything, is one range over a run of residues scoring below twice the median |
| Superpose.ClosedRunEmitted | src/main/resources/super.py:231-233 | a run followed by a residue outside the core is emitted as (start, last) |
| Superpose.RunAtFinalResidueNotEmitted | src/main/resources/super.py:225-238 | a run that starts at the final residue adds no range |
| Superpose.Scores | src/main/resources/super.py:209-212 | the scores the median is taken over, one per scored residue |
| Superpose.FindCore | src/main/resources/super.py:180-246 | fails exactly when no residue is scored; otherwise the formatted core ranges of the scan at twice the median of the scores |
| Superpose.FormatAll | src/main/resources/super.py:240-245 | one text per range: `n` for a single residue, `start-end` otherwise |
| Superpose.FormatRanges | src/main/resources/super.py:240-246 | the formatting loop returns FormatAll of the ranges |
| Superpose.DoSelections | src/main/resources/super.py:248-255 | every atom is flagged exactly when some `res.atoms` selection picks it; the flags of earlier calls do not survive |
| Superpose.SaveModels | src/main/resources/super.py:263-269 | zip stops at the shorter list; each active structure goes to its input file's `sup_` path |
| Superpose.SupFileInsertsPrefix | src/main/resources/super.py:266-268 | the saved path is the input path with `sup_` inserted after its last slash (when the directory part does not end in a doubled slash) |
| Superpose.Insert | src/main/resources/super.py:12 | the insertion step of the sort: x goes before the first value it does not exceed (sortedness and permutation in InsertSorted/InsertPermutes) |
| Superpose.MedianOfSorted | src/main/resources/super.py:13-21 | none for no values, the value for one, else the mean of values[n/2] and values[(n-1)/2]: the middle value, or the mean of the two middle ones (MedianSplitsValues, MedianOdd) |
| Superpose.RangeToken | src/main/resources/super.py:121-125 | a token `a-b` names `chain.a` … `chain.b` from int() of the two pieces around `-` (RangeNames) |
| Superpose.CommaTokens | src/main/resources/super.py:126-128 | a plain comma list: tokens empty before stripping are dropped, the rest stripped and chain-prefixed (Prefixed) |
| Superpose.MakeResList | src/main/resources/super.py:102-130 | makeResList: ranges, comma lists, `*`, and an unbound resList for a bare number (MakeResListRange, MakeResListCommaList, MakeResListBareNumber) |
| Superpose.ChainPart | src/main/resources/super.py:88-91 | one `chain: spec` part of a `;` list; a part without `:` is an IndexError |
| Superpose.GetResList | src/main/resources/super.py:85-100 | getResList: `;` parts concatenated, a single `chain: spec`, or chain A by default (GetResListConcatenates, GetResListExplicitChain, GetResListDefaultsToChainA) |
| Superpose.AtomList | src/main/resources/super.py:58-61 | an atom argument split on `,`, empty tokens dropped and the rest stripped |
| Superpose.SumFix | src/main/resources/super.py:162-169 | the sum of the rms values of the pairs whose fixed model is i (SumFixWithoutFix) |
| Superpose.AvgRms | src/main/resources/super.py:170-176 | a model's mean rms against the other nFiles-1 models (SelectMinimum, MinimumFound) |
| Superpose.ScorePolymer | src/main/resources/super.py:193-211 | one polymer's residue scores: the mean B-factor of the counting atoms of each selected residue that has one (ScoredResiduesQualify, QualifyingResiduesScored) |
| Superpose.InCore | src/main/resources/super.py:221-223 | a residue is core when its score is strictly below twice the median |
| Superpose.CoreUpTo | src/main/resources/super.py:214-238 | the core ranges the two-state scan emits over the first n residues (CoreScan, CoreRangesAreRuns, RunAtFinalResidueNotEmitted) |
| Superpose.FormatRange | src/main/resources/super.py:240-245 | a range printed as `n` for one residue and `start-end` otherwise (FormatAll) |
| Superpose.SupFile | src/main/resources/super.py:266-268 | the output path: `sup_` inserted before the file name, in the same directory (SupFileInsertsPrefix) |
| Superpose.MixedTokens | src/main/resources/super.py:109-120 | a comma list with ranges: each token a range or a single stripped residue, in input order (MakeResListRange) |
| Util.StringMatch | src/main/java/org/nmrfx/structure/utilities/Util.java:93-203 | stringMatch returns exactly whether the whole string matches the whole pattern under the recursive glob semantics Matches |
| Util.MatchFrom | src/main/java/org/nmrfx/structure/utilities/Util.java:105-202 | the index-walking loop (with its deferred increment of both indices) decides Matches on the suffixes it starts from |
| Util.MatchStar | src/main/java/org/nmrfx/structure/utilities/Util.java:127-141 | after a `*`, trying each suffix in turn answers whether some suffix of the string matches the rest of the pattern |
| Util.MatchClass | src/main/java/org/nmrfx/structure/utilities/Util.java:153-184 | a bracket set hits exactly when some member (a character, or a range in either order) admits the string character; on a hit the scan stops on the closing `]`, or on the last pattern character when there is none |
| Util.ScanClass | src/main/java/org/nmrfx/structure/utilities/Util.java:153-178 | the scan of a bracket set finds the first member (a character, or a range in either order) that admits the character, and none when the set or pattern ends first |
| Util.SkipToClose | src/main/java/org/nmrfx/structure/utilities/Util.java:179-184 | the skip stops on the first `]` at or after the start, or at the end of the pattern |
| Util.ClassScan | src/main/java/org/nmrfx/structure/utilities/Util.java:155-176 | a hit is reported at a pattern position inside the set |
| Util.CloseBracket | src/main/java/org/nmrfx/structure/utilities/Util.java:178-182 | the position of the first `]` at or after q, or the pattern's end, with no `]` in between |
| Util.MatchesClassStep | src/main/java/org/nmrfx/structure/utilities/Util.java:153-184 | a `[set]` consumes one string character exactly when the set admits it, and matching resumes after the closing bracket |
| Util.MatchesStarStep | src/main/java/org/nmrfx/structure/utilities/Util.java:127-141 | a `*` matches when it ends the pattern or when some suffix matches the rest |
| Util.MatchesAnyStep | src/main/java/org/nmrfx/structure/utilities/Util.java:145-148 | `?` consumes exactly one string character |
| Util.MatchesEscapeStep | src/main/java/org/nmrfx/structure/utilities/Util.java:189-200 | `\` makes the next pattern character literal; a trailing lone `\` never matches |
| Util.MatchesLiteralStep | src/main/java/org/nmrfx/structure/utilities/Util.java:198-201 | an ordinary pattern character must equal the string character, case-sensitively |
| Util.LiteralMatchesOnlyItself | src/main/java/org/nmrfx/structure/utilities/Util.java:196-201 | a pattern free of special characters matches exactly the string equal to it |
| Util.QuestionMarksMatchLength | src/main/java/org/nmrfx/structure/utilities/Util.java:145-148 | a pattern of n `?` matches exactly the strings of length n |
| Util.EmptyMatchesOnlyStars | src/main/java/org/nmrfx/structure/utilities/Util.java:116-121 | an exhausted string matches exactly a pattern rest made only of `*` |
| Util.TrailingStarMatchesAnything | src/main/java/org/nmrfx/structure/utilities/Util.java:128-131 | a final `*` matches any remainder of the string |
| Util.UnterminatedBracketAfterHit | src/main/java/org/nmrfx/structure/utilities/Util.java:178-183 | an unclosed `[ab` matches "a" (the scan falls back to the last pattern character) but not "ab" |
| Util.UnterminatedBracketMiss | src/main/java/org/nmrfx/structure/utilities/Util.java:155-158 | an unclosed set none of whose members match fails |
| Util.NefWildcardOf | src/main/java/org/nmrfx/structure/utilities/Util.java:54-64 | the chosen wildcard (first `x`, else `y`, else `%`; then `*`; then `#`) lies inside the pattern |
| Util.NefMatchExact | src/main/java/org/nmrfx/structure/utilities/Util.java:71-73 | with no wildcard character the match is plain case-sensitive equality |
| Util.NefMatchDigits | src/main/java/org/nmrfx/structure/utilities/Util.java:58-70 | for a prefix free of regular-expression metacharacters, `prefix%…` matches exactly the prefix, in any ASCII case, followed by one or more digits |
| Util.NefMatchIgnoresTail | src/main/java/org/nmrfx/structure/utilities/Util.java:59 | the text after the wildcard does not affect the match |
| Util.NefMatchAtom | src/main/java/org/nmrfx/structure/utilities/Util.java:31-51 | a match needs the lower-cased name to match; with `x`/`y` the atom (or its methyl carbon) must have a lower index than its partner for `x` and not lower for `y`, and without a partner it fails; other patterns keep the name match |
| Util.Matches | src/main/java/org/nmrfx/structure/utilities/Util.java:93-203 | the recursive glob semantics stringMatch is proved against: one case per special character `*`, `?`, `[…]`, `\\` and literal (StringMatch, Matches*Step lemmas) |
| Util.NefMatch | src/main/java/org/nmrfx/structure/utilities/Util.java:52-75 | nefMatch(String, String): with a wildcard the text before it, compared ASCII case-insensitively, then digits or non-spaces; without one plain equality (NefMatchExact, NefMatchDigits; the prefix is taken literally, see Left out) |
| Util.PartnerPair | src/main/java/org/nmrfx/structure/utilities/Util.java:33-41 | the atom compared with its partner: a methylene hydrogen itself, a methyl hydrogen its carbon, together with that atom's partner (NefMatchAtom) |
| PeakLists.Peak.constructor | src/main/java/org/nmrfx/peaks/PeakListBase.java:492-500 | a peak starts unindexed (index -1) with its id number and status |
| PeakLists.IndexMapFindsEveryPeak | src/main/java/org/nmrfx/peaks/PeakListBase.java:492-500 | the index map built by reIndex maps each peak's id number to that peak, and has no other keys |
| PeakLists.PeakList.constructor | src/main/java/org/nmrfx/peaks/PeakListBase.java:42-69 | a new list has no peaks, an empty index map, idLast -1, no search dims and no properties |
| PeakLists.PeakList.ReIndex | src/main/java/org/nmrfx/peaks/PeakListBase.java:492-500 | the peak at position i gets index i, id numbers and statuses are unchanged, and the index map maps each id number to its peak |
| PeakLists.PeakList.GetPeak | src/main/java/org/nmrfx/peaks/PeakListBase.java:418-431 | the peak at position i when 0 <= i < size, otherwise null; the list is unchanged |
| PeakLists.PeakList.Compress | src/main/java/org/nmrfx/peaks/PeakListBase.java:1079-1091 | removes exactly the peaks with status < 0, keeping the others in order, returns the number removed, and reindexes |
| PeakLists.PeakList.DropDeleted | src/main/java/org/nmrfx/peaks/PeakListBase.java:1081-1088 | the backward removal loop leaves exactly the kept peaks and counts the removed ones |
| PeakLists.DropLoop | src/main/java/org/nmrfx/peaks/PeakListBase.java:1081-1088 | walking from the end and removing each peak with negative status leaves exactly the kept peaks in order, and counts the removed ones |
| PeakLists.Kept | src/main/java/org/nmrfx/peaks/PeakListBase.java:1081-1088 | the peaks left by compress: never more than before |
| PeakLists.KeptExactly | src/main/java/org/nmrfx/peaks/PeakListBase.java:1079-1091 | a peak survives compress exactly when it was in the list with status >= 0, and distinct peaks stay distinct |
| PeakLists.PeakList.ReNumber | src/main/java/org/nmrfx/peaks/PeakListBase.java:882-889 | each peak's id number becomes its position, idLast becomes size-1, and the index map maps every position to its peak |
| PeakLists.NumberPeaks | src/main/java/org/nmrfx/peaks/PeakListBase.java:882-889 | the numbering loop gives each peak its position as id number and changes no other field of a peak |
| PeakLists.NumberedIndexMap | src/main/java/org/nmrfx/peaks/PeakListBase.java:882-889 | after renumbering, the index map's keys are exactly the positions 0..size-1 |
| Seqs.RemoveFirst | src/main/java/org/nmrfx/peaks/PeakListBase.java:986 | List.remove(Object) leaves a list without the element unchanged, and otherwise drops exactly one occurrence of it |
| Seqs.RemoveFirstDistinct | src/main/java/org/nmrfx/peaks/PeakListBase.java:986 | in a list without repeats the removed element is gone, the rest stays present and the list stays without repeats |
| PeakLists.PeakList.RemovePeak | src/main/java/org/nmrfx/peaks/PeakListBase.java:982-988 | an empty list throws; otherwise the first occurrence of the peak is removed (it occurs once), idLast drops by one only when it was the last peak, and the list is reindexed |
| PeakLists.PeakList.RemoveFromList | src/main/java/org/nmrfx/peaks/PeakListBase.java:986 | List.remove drops the first occurrence; the peak is no longer present and no peak is added |
| PeakLists.PeakList.GetListDim | src/main/java/org/nmrfx/peaks/PeakListBase.java:458-470 | the first dimension whose name equals s ignoring case, or -1 |
| PeakLists.FirstNamed | src/main/java/org/nmrfx/peaks/PeakListBase.java:458-470 | -1 or an index whose name equals s ignoring case, with no earlier such name |
| PeakLists.GetPeakDimNum | src/main/java/org/nmrfx/peaks/PeakListBase.java:715-729 | a specifier without a dot gives 0 |
| PeakLists.GetPeakDimNumOfSpecifier | src/main/java/org/nmrfx/peaks/PeakListBase.java:715-729 | `list.id.n` gives n-1 |
| PeakLists.GetPeakDimNumOneDot | src/main/java/org/nmrfx/peaks/PeakListBase.java:719-726 | with a single dot the dimension is 0 |
| PeakLists.PeakList.GetPeakDim | src/main/java/org/nmrfx/peaks/PeakListBase.java:737-765 | getPeakDim returns PeakDimOf on the list's dimension names |
| PeakLists.PeakDimOf | src/main/java/org/nmrfx/peaks/PeakListBase.java:737-765 | a result is a dimension index in [0, nDim); every failure is an IllegalArgumentException |
| PeakLists.PeakDimByName | src/main/java/org/nmrfx/peaks/PeakListBase.java:745-748 | `list.id.name` resolves to the first dimension with that name |
| PeakLists.PeakList.GetDimsForDataset | src/main/java/org/nmrfx/peaks/PeakListBase.java:520-558 | the loops compute MatchedDims: label match first, nucleus match in loose mode, throw on an unmatched dimension |
| PeakLists.MatchDimsInArrays | src/main/java/org/nmrfx/peaks/PeakListBase.java:521-557 | the matching loop over the pdim and used arrays computes MatchedDims |
| PeakLists.Assign | src/main/java/org/nmrfx/peaks/PeakListBase.java:529-530 | recording a match sets pdim[j] and marks the dataset dimension used |
| PeakLists.MatchDimsGood | src/main/java/org/nmrfx/peaks/PeakListBase.java:520-558 | a successful matching is injective into the dataset dimensions; each peak dim matches by label, or (loose mode only) by nucleus when all its label matches were taken earlier |
| PeakLists.MatchDimsFails | src/main/java/org/nmrfx/peaks/PeakListBase.java:551-555 | the matching throws exactly when some peak dimension finds no free dataset dimension in its turn |
| PeakLists.MatchedDimsFail | src/main/java/org/nmrfx/peaks/PeakListBase.java:551-555 | the error names the first unmatched peak dimension |
| PeakLists.ChooseDim | src/main/java/org/nmrfx/peaks/PeakListBase.java:526-550 | the chosen dataset dimension is -1 or a valid index |
| PeakLists.FoldPPM | src/main/java/org/nmrfx/peaks/PeakListBase.java:472-487 | bounds are swapped when reversed; equal bounds return ppm; otherwise the result is >= min and differs from ppm by a whole multiple of fDelta, is <= max when fDelta fits in the range, and is ppm itself when ppm is already in range |
| PeakLists.FoldDown | src/main/java/org/nmrfx/peaks/PeakListBase.java:479-481 | stepping down by fDelta ends at or below max, a whole number of steps from ppm, and leaves a ppm already at or below max alone |
| PeakLists.FoldUp | src/main/java/org/nmrfx/peaks/PeakListBase.java:482-484 | stepping up by fDelta ends at or above min, a whole number of steps away, stays at or below max when it started there and fDelta fits in the range, and leaves a value already at or above min alone |
| PeakLists.PeakList.AddSearchDim | src/main/java/org/nmrfx/peaks/PeakListBase.java:845-855 | removes every search dim of that dimension and appends the new one last |
| PeakLists.AddSearchDimUnique | src/main/java/org/nmrfx/peaks/PeakListBase.java:845-855 | after addSearchDim each dimension has at most one entry, the new one is last, and other dimensions' entries are kept |
| PeakLists.WithoutDim | src/main/java/org/nmrfx/peaks/PeakListBase.java:846-852 | the entries kept are exactly those of other dimensions |
| PeakLists.PeakList.AddSearchDimNamed | src/main/java/org/nmrfx/peaks/PeakListBase.java:835-838 | addSearchDim by name uses the first dimension with that name |
| PeakLists.PeakList.SetSearchDims | src/main/java/org/nmrfx/peaks/PeakListBase.java:817-828 | an odd token count throws IllegalArgumentException before the existing entries are cleared; otherwise the entries are cleared and each (name, tolerance) pair added in order, a tolerance that does not parse throwing NumberFormatException |
| PeakLists.PairsAppliedUnique | src/main/java/org/nmrfx/peaks/PeakListBase.java:817-828 | setSearchDims keeps at most one entry per dimension |
| PeakLists.PeakList.GetProperty | src/main/java/org/nmrfx/peaks/PeakListBase.java:924-930 | a missing property reads "" |
| PeakLists.PeakList.SetProperty | src/main/java/org/nmrfx/peaks/PeakListBase.java:946-948 | the property then holds the value; every other property is unchanged |
| PeakLists.IndexMapOf | src/main/java/org/nmrfx/peaks/PeakListBase.java:492-500 | the map reIndex builds: each id number to the last peak of the list carrying it (IndexMapFindsEveryPeak) |
| PeakLists.ResolvedDim | src/main/java/org/nmrfx/peaks/PeakListBase.java:737-765 | getPeakDim before the range check: a name looked up among the dimensions, a number n read as n-1, no dot as 0 (PeakDimOf, PeakDimByName) |
| PeakLists.MatchedDims | src/main/java/org/nmrfx/peaks/PeakListBase.java:520-558 | getDimsForDataset's matching: each peak dimension takes the first free dataset dimension with its label, or its nucleus in loose mode, else the error (MatchDimsGood, MatchDimsFails) |
| PeakLists.Shifted | src/main/java/org/nmrfx/peaks/PeakListBase.java:472-487 | ppm moved by whole steps of fDelta, the only values foldPPM can return (FoldPPM) |
| PeakLists.PairsApplied | src/main/java/org/nmrfx/peaks/PeakListBase.java:817-828 | the search dims after the first k (name, tolerance) pairs, stopping at a tolerance that does not parse (PairsAppliedUnique) |
| Resonances.PeakDim.constructor | nmrfx-core/src/main/java/org/nmrfx/chemistry/AtomResonance.java:397-431 | a stand-in for the collaborator PeakDim, holding what getPPMDev reads of it (its chemical shift and its peak list's sample-condition label) and the resonance `add` sets (line 340); a new one has the given shift and condition and no resonance |
| Resonances.AtomResonance.constructor | nmrfx-core/src/main/java/org/nmrfx/chemistry/AtomResonance.java:60-63 | a new resonance has its id, null names, no atom and no peak dimensions |
| Resonances.NameOfIsJoin | nmrfx-core/src/main/java/org/nmrfx/chemistry/AtomResonance.java:275-292 | getName is "" for null names, and otherwise the names joined by single spaces, leading empty names adding no separator |
| Resonances.BuiltFromEmpty | nmrfx-core/src/main/java/org/nmrfx/chemistry/AtomResonance.java:281-288 | the StringBuilder loop yields the join of the names after the leading empty ones |
| Resonances.NameOfSplits | nmrfx-core/src/main/java/org/nmrfx/chemistry/AtomResonance.java:275-292 | when no name is empty or holds a space, splitting getName on spaces gives back the names |
| Resonances.AtomResonance.SetName | nmrfx-core/src/main/java/org/nmrfx/chemistry/AtomResonance.java:77-95 | names become a copy of the new list (empty for null), and labelValid holds iff the list is null or every name is blank or found in the active molecule |
| Resonances.AtomResonance.SetNameString | nmrfx-core/src/main/java/org/nmrfx/chemistry/AtomResonance.java:294-296 | setName(name) leaves exactly that one name, read back by getName, and validates it |
| Resonances.AtomResonance.Copy | nmrfx-core/src/main/java/org/nmrfx/chemistry/AtomResonance.java:65-75 | a fresh resonance with the same id, atom, atom name and peak dimensions, the same getName (held as one name), and its label validity recomputed |
| Resonances.AtomResonance.Merge | nmrfx-core/src/main/java/org/nmrfx/chemistry/AtomResonance.java:318-332 | merging with itself changes nothing; otherwise every peak dimension of B is re-pointed here, those not yet present are appended in order, B's list is emptied, and no duplicates arise |
| Resonances.AtomResonance.Add | nmrfx-core/src/main/java/org/nmrfx/chemistry/AtomResonance.java:339-344 | the peak dimension points here and is present afterwards, appended only when absent, so adding twice equals adding once and no duplicates arise |
| Resonances.AtomResonance.Remove | nmrfx-core/src/main/java/org/nmrfx/chemistry/AtomResonance.java:271-273 | List.remove drops the first occurrence; in a duplicate-free list the peak dimension is then absent |
| Resonances.AtomResonance.GetPeakCount | nmrfx-core/src/main/java/org/nmrfx/chemistry/AtomResonance.java:433-445 | the loop counts the peak dimensions in the condition (CountIn) |
| Resonances.CountInAll | nmrfx-core/src/main/java/org/nmrfx/chemistry/AtomResonance.java:433-445 | the count is the whole list exactly when every peak dimension is in the condition |
| Resonances.CountWithoutCondition | nmrfx-core/src/main/java/org/nmrfx/chemistry/AtomResonance.java:436 | a null or empty condition counts every peak dimension |
| Resonances.AtomResonance.GetPPMAvg | nmrfx-core/src/main/java/org/nmrfx/chemistry/AtomResonance.java:346-369 | the loop returns the mean of the shifts in the condition, or null when none contributes |
| Resonances.PPMAvgNone | nmrfx-core/src/main/java/org/nmrfx/chemistry/AtomResonance.java:365-368 | the average is null exactly when no peak dimension in the condition has a shift |
| Resonances.PPMAvgBetween | nmrfx-core/src/main/java/org/nmrfx/chemistry/AtomResonance.java:346-369 | the average of shifts between lo and hi lies between lo and hi |
| Resonances.AtomResonance.GetPPMDev | nmrfx-core/src/main/java/org/nmrfx/chemistry/AtomResonance.java:397-431 | the loop returns the clamped variance whose square root getPPMDev takes: null for no shift, 0 for one, otherwise the mean square minus the squared mean, or 0 when that is not positive |
| Resonances.VarianceNotNegative | nmrfx-core/src/main/java/org/nmrfx/chemistry/AtomResonance.java:418-425 | in exact arithmetic the mean square minus the squared mean is never negative, so the clamp changes nothing |
| Resonances.PPMVarianceExact | nmrfx-core/src/main/java/org/nmrfx/chemistry/AtomResonance.java:418-428 | for two or more shifts the result is exactly the mean square minus the squared mean, without the clamp at 0 |
| Resonances.PPMOfEqualShifts | nmrfx-core/src/main/java/org/nmrfx/chemistry/AtomResonance.java:346-431 | identical shifts average to that shift and have deviation 0 |
| Resonances.SquaredDeviationExpands | nmrfx-core/src/main/java/org/nmrfx/chemistry/AtomResonance.java:413-420 | the sum of squared deviations from m expands to sumsq - 2 m sum + n m^2 |
| Resonances.AtomResonance.ToSTARResonanceString | nmrfx-core/src/main/java/org/nmrfx/chemistry/AtomResonance.java:240-261 | the line is the five space-separated fields: id, quoted name, `.` or nothing for the resonance set, ssID or `.`, and `1` |
| Resonances.StarLineSplits | nmrfx-core/src/main/java/org/nmrfx/chemistry/AtomResonance.java:240-261 | splitting the line on spaces gives back the five fields when the name and the spin-system id hold no space |
| Resonances.StarResonanceLine | nmrfx-core/src/main/java/org/nmrfx/chemistry/AtomResonance.java:241-260 | the builder's piecewise appends produce the five fields joined by single spaces |
| Resonances.NameOf | nmrfx-core/src/main/java/org/nmrfx/chemistry/AtomResonance.java:275-292 | getName: "" for null or empty names, else the names joined by spaces with leading empty ones skipped (NameOfIsJoin, NameOfSplits) |
| Resonances.LabelValid | nmrfx-core/src/main/java/org/nmrfx/chemistry/AtomResonance.java:97-105 | isLabelValid: a blank name, or any name without an active molecule, is valid; otherwise the molecule must find the atom |
| Resonances.CountIn | nmrfx-core/src/main/java/org/nmrfx/chemistry/AtomResonance.java:433-445 | getPeakCount: the peak dimensions whose list matches the condition, all of them for a null or empty condition (CountInAll, CountWithoutCondition) |
| Resonances.PPMAvg | nmrfx-core/src/main/java/org/nmrfx/chemistry/AtomResonance.java:346-369 | getPPMAvg: the mean of the shifts in the condition, none when none contributes (PPMAvgNone, PPMAvgBetween) |
| Resonances.PPMVariance | nmrfx-core/src/main/java/org/nmrfx/chemistry/AtomResonance.java:397-431 | the square of getPPMDev: none for no shift, 0 for one, else the mean square minus the squared mean clamped at 0 (VarianceNotNegative, PPMVarianceExact) |
| Resonances.StarFields | nmrfx-core/src/main/java/org/nmrfx/chemistry/AtomResonance.java:240-261 | the five fields of a _Resonance row (StarLineSplits) |
| Resonances.AtomResonance.GetAtomName | nmrfx-core/src/main/java/org/nmrfx/chemistry/AtomResonance.java:111-117 | getAtomName: the assigned atom's full name, else the stored atom name |
| Resonances.Shifts | nmrfx-core/src/main/java/org/nmrfx/chemistry/AtomResonance.java:346-369 | the shifts getPPMAvg and getPPMDev read: each peak dimension in the condition that has a shift, in list order (ShiftsEmpty, PPMAvgBetween) |
| GroupIndex.New | nmrfx-processor/src/main/java/org/nmrfx/processor/datasets/DatasetGroupIndex.java:12-15 | the group keeps a copy of the array's contents at construction and the group number |
| GroupIndex.EqualsIsValueEquality | nmrfx-processor/src/main/java/org/nmrfx/processor/datasets/DatasetGroupIndex.java:17-30 | equals holds exactly when the group numbers and all indices are equal, and equal groups have equal hashCode (Objects.hash and Arrays.hashCode in 32-bit arithmetic) |
| GroupIndex.ToIndexString | nmrfx-processor/src/main/java/org/nmrfx/processor/datasets/DatasetGroupIndex.java:32-47 | the builder loop yields IndexString: the indices comma-separated, each non-negative one plus 1, negatives unchanged |
| GroupIndex.IndexTexts | nmrfx-processor/src/main/java/org/nmrfx/processor/datasets/DatasetGroupIndex.java:41-44 | one text per index, a non-negative index printed plus one |
| GroupIndex.IndexStringReadsBack | nmrfx-processor/src/main/java/org/nmrfx/processor/datasets/DatasetGroupIndex.java:32-47 | splitting the index string on commas gives one field per index, each parsing to the printed value, from which the index is recovered |
| GroupIndex.GetSkipString | nmrfx-processor/src/main/java/org/nmrfx/processor/datasets/DatasetGroupIndex.java:61-86 | the loop yields the skip string as written: none for no groups, else `[` + the texts with `],[` added whenever the builder is longer than one character + `]` |
| GroupIndex.SkipBuiltJoins | nmrfx-processor/src/main/java/org/nmrfx/processor/datasets/DatasetGroupIndex.java:65-78 | when the first group has indices, the builder holds `[` followed by the groups' index strings joined by `],[` |
| GroupIndex.SkipStringAgrees | nmrfx-processor/src/main/java/org/nmrfx/processor/datasets/DatasetGroupIndex.java:61-86 | as written and as intended agree whenever the first group has at least one index |
| GroupIndex.SkipStringOneListPerGroup | nmrfx-processor/src/main/java/org/nmrfx/processor/datasets/DatasetGroupIndex.java:61-86 | the intended skip string closes exactly one bracketed list per group |
| GroupIndex.SkipStringLosesSeparator | nmrfx-processor/src/main/java/org/nmrfx/processor/datasets/DatasetGroupIndex.java:71-73 | as written, a first group with no indices swallows the separator: [[], [0]] gives `[1]` instead of `[],[1]` |
| GroupIndex.GroupToIndices | nmrfx-processor/src/main/java/org/nmrfx/processor/datasets/DatasetGroupIndex.java:87-111 | a group without indices fails with the counter's ArrayIndexOutOfBoundsException (index -1, length 0); 31 or more indices fail with NotStrictlyPositiveException, the int size 2^n having wrapped (CounterTotal); otherwise exactly 2^n rows, row j being the indices expanded by the counter's j-th state (the binary digits of j, last dimension fastest) |
| GroupIndex.ExpandRow | nmrfx-processor/src/main/java/org/nmrfx/processor/datasets/DatasetGroupIndex.java:99-108 | the inner loop yields the row a counter state selects: each index times 2 plus its count, wrapped to an int, or -1 for a negative index (Expanded) |
| GroupIndex.CounterTotal | nmrfx-processor/src/main/java/org/nmrfx/processor/datasets/DatasetGroupIndex.java:89-93 | the counter's int size for n dimensions of size 2: 2^n up to 30 dimensions, Integer.MIN_VALUE at 31 and 0 beyond |
| GroupIndex.Counts | nmrfx-processor/src/main/java/org/nmrfx/processor/datasets/DatasetGroupIndex.java:93-98 | the counter state has n counts, each 0 or 1 |
| GroupIndex.CountsValue | nmrfx-processor/src/main/java/org/nmrfx/processor/datasets/DatasetGroupIndex.java:93-98 | the j-th counter state read as a binary number is j, so the states are all distinct |
| GroupIndex.Expanded | nmrfx-processor/src/main/java/org/nmrfx/processor/datasets/DatasetGroupIndex.java:99-107 | element k is 2*indices[k] + count (in int arithmetic) when the index is non-negative, else -1 |
| GroupIndex.RowsDistinct | nmrfx-processor/src/main/java/org/nmrfx/processor/datasets/DatasetGroupIndex.java:87-111 | for non-negative indices below 2^30 no two rows are equal, so the 2^n rows are all the combinations |
| GroupIndex.RowElements | nmrfx-processor/src/main/java/org/nmrfx/processor/datasets/DatasetGroupIndex.java:99-106 | each element is -1 for a negative index and 2i or 2i+1 for an index i in [0, 2^30) |
| GroupIndex.Equals | nmrfx-processor/src/main/java/org/nmrfx/processor/datasets/DatasetGroupIndex.java:17-26 | equals: the same group number and element-wise the same indices (EqualsIsValueEquality) |
| GroupIndex.ArraysHash | nmrfx-processor/src/main/java/org/nmrfx/processor/datasets/DatasetGroupIndex.java:27-30 | Arrays.hashCode of the indices: 1, then 31 h + e per element, wrapped to 32 bits |
| GroupIndex.HashCode | nmrfx-processor/src/main/java/org/nmrfx/processor/datasets/DatasetGroupIndex.java:27-30 | hashCode: Objects.hash of the group number combined with the indices' hash in 32-bit arithmetic; equal groups hash alike (EqualsIsValueEquality) |
| GroupIndex.IndexString | nmrfx-processor/src/main/java/org/nmrfx/processor/datasets/DatasetGroupIndex.java:32-47 | toIndexString: the indices comma-separated, non-negative ones printed plus one (IndexStringReadsBack) |
| GroupIndex.SkipStringAsWritten | nmrfx-processor/src/main/java/org/nmrfx/processor/datasets/DatasetGroupIndex.java:61-86 | getSkipString as written, where an empty first group swallows the `],[` separator (SkipStringLosesSeparator) |
| GroupIndex.SkipString | nmrfx-processor/src/main/java/org/nmrfx/processor/datasets/DatasetGroupIndex.java:61-86 | getSkipString as intended: each group's index string in brackets, comma-separated (SkipStringOneListPerGroup, SkipStringAgrees) |
| GroupIndex.Element | nmrfx-processor/src/main/java/org/nmrfx/processor/datasets/DatasetGroupIndex.java:99-107 | one element of an expanded row: 2 i + count in int arithmetic, -1 for a negative index (RowElements) |
| AcqOrder.AcqOrderState.constructor | nmrfx-processor/src/main/java/org/nmrfx/processor/datasets/vendor/rs2d/RS2DData.java:116-129 | a new reader has its dimension count, no sampling schedule and no cached order |
| AcqOrder.AcqOrderState.SetSampleSchedule | nmrfx-processor/src/main/java/org/nmrfx/processor/datasets/vendor/rs2d/RS2DData.java:1049-1051 | the schedule becomes the given one |
| AcqOrder.AcqOrderState.ResetAcqOrder | nmrfx-processor/src/main/java/org/nmrfx/processor/datasets/vendor/rs2d/RS2DData.java:940-942 | the cached order is cleared |
| AcqOrder.AcqOrderState.GetAcqOrder | nmrfx-processor/src/main/java/org/nmrfx/processor/datasets/vendor/rs2d/RS2DData.java:945-956 | the cached order when there is one; else the default p1,d1,…,p(n-1),d(n-1), which is then cached (a dimension count of 0 fails on the negative array size) |
| AcqOrder.DefaultOrderLayout | nmrfx-processor/src/main/java/org/nmrfx/processor/datasets/vendor/rs2d/RS2DData.java:947-953 | the default order has 2(n-1) entries, entry i being `p` for even i and `d` for odd i, numbered i/2+1 |
| AcqOrder.AcqOrderState.SetAcqOrder | nmrfx-processor/src/main/java/org/nmrfx/processor/datasets/vendor/rs2d/RS2DData.java:959-1020 | an array of other than one element is copied verbatim; one string of length nDim or nDim-1 is read right to left skipping the digit nDim; a longer one skipping nDim+1; a shorter one leaves the order unchanged |
| AcqOrder.AcqOrderState.FillOrder | nmrfx-processor/src/main/java/org/nmrfx/processor/datasets/vendor/rs2d/RS2DData.java:966-1014 | the writing loops store the entries of the string into a new array of the computed size, failing on an index past its end |
| AcqOrder.EntriesLayout | nmrfx-processor/src/main/java/org/nmrfx/processor/datasets/vendor/rs2d/RS2DData.java:968-989 | with a non-demo schedule every `p` entry comes before every `d` entry; otherwise each kept digit gives a `p`,`d` pair, in right-to-left order |
| AcqOrder.WritePairs | nmrfx-processor/src/main/java/org/nmrfx/processor/datasets/vendor/rs2d/RS2DData.java:982-988 | the interleaved loop writes `p<digit>`, `d<digit>` for each kept digit, right to left |
| AcqOrder.WriteTagged | nmrfx-processor/src/main/java/org/nmrfx/processor/datasets/vendor/rs2d/RS2DData.java:969-980 | one scheduled loop writes `tag<digit>` for each kept digit, right to left, from the current index on |
| AcqOrder.Put | nmrfx-processor/src/main/java/org/nmrfx/processor/datasets/vendor/rs2d/RS2DData.java:972 | `acqOrder[j++] = x` stores x at j, or fails writing nothing when j is past the end |
| AcqOrder.AcqOrderState.GetAcqOrderShort | nmrfx-processor/src/main/java/org/nmrfx/processor/datasets/vendor/rs2d/RS2DData.java:1023-1041 | the dimension count (pairs+1 when the pair count equals nDim), then the digit of each `p` entry from the last back; "" as soon as an entry starts with `a` |
| AcqOrder.ReadShort | nmrfx-processor/src/main/java/org/nmrfx/processor/datasets/vendor/rs2d/RS2DData.java:1025-1040 | the loop of getAcqOrderShort over a given order computes Short |
| AcqOrder.AcqOrderRoundTrip | nmrfx-processor/src/main/java/org/nmrfx/processor/datasets/vendor/rs2d/RS2DData.java:959-1041 | for 1 <= nDim <= 9, setting the order from a string of length nDim that starts with the digit nDim and does not repeat it, then asking for the short form, gives the string back, with or without a schedule |
| AcqOrder.DefaultOrder | nmrfx-processor/src/main/java/org/nmrfx/processor/datasets/vendor/rs2d/RS2DData.java:947-953 | the default order p1,d1,…,pn,dn getAcqOrder builds (DefaultOrderLayout) |
| AcqOrder.Current | nmrfx-processor/src/main/java/org/nmrfx/processor/datasets/vendor/rs2d/RS2DData.java:945-956 | what getAcqOrder returns: the cached order, else the default one, failing for no dimension (AcqOrderState.GetAcqOrder) |
| AcqOrder.Entries | nmrfx-processor/src/main/java/org/nmrfx/processor/datasets/vendor/rs2d/RS2DData.java:966-989 | the entries setAcqOrder writes for one string: all p before all d with a real schedule, else p,d pairs (EntriesLayout) |
| AcqOrder.SetOutcome | nmrfx-processor/src/main/java/org/nmrfx/processor/datasets/vendor/rs2d/RS2DData.java:959-1020 | setAcqOrder's stored order and exception: a multi-element array verbatim, one string read right to left (AcqOrderState.SetAcqOrder, AcqOrderRoundTrip) |
| AcqOrder.Short | nmrfx-processor/src/main/java/org/nmrfx/processor/datasets/vendor/rs2d/RS2DData.java:1023-1041 | getAcqOrderShort on an order: the dimension count and the p digits from the last entry back, "" on an `a` entry (AcqOrderRoundTrip) |
| RS2D.RS2DData.constructor | nmrfx-processor/src/main/java/org/nmrfx/processor/datasets/vendor/rs2d/RS2DData.java:116-129 | a new reader has empty SF, SW, Ref and nucleus caches, no complex or negated dimensions, and the header's sizes |
| RS2D.RS2DData.GetSF | nmrfx-processor/src/main/java/org/nmrfx/processor/datasets/vendor/rs2d/RS2DData.java:476-492 | the cached SF if set; else the header's base frequency plus offset/1e6, which is then cached; else 1.0, caching nothing |
| RS2D.RS2DData.SetSF | nmrfx-processor/src/main/java/org/nmrfx/processor/datasets/vendor/rs2d/RS2DData.java:495-497 | the SF cache of that dimension holds the value; the others are unchanged |
| RS2D.RS2DData.ResetSF | nmrfx-processor/src/main/java/org/nmrfx/processor/datasets/vendor/rs2d/RS2DData.java:500-502 | the SF cache of that dimension is cleared |
| RS2D.RS2DData.GetSW | nmrfx-processor/src/main/java/org/nmrfx/processor/datasets/vendor/rs2d/RS2DData.java:505-521 | the cached SW if set; else the header's value, then cached; else 1.0 |
| RS2D.RS2DData.SetSW | nmrfx-processor/src/main/java/org/nmrfx/processor/datasets/vendor/rs2d/RS2DData.java:524-526 | the SW cache of that dimension holds the value |
| RS2D.RS2DData.ResetSW | nmrfx-processor/src/main/java/org/nmrfx/processor/datasets/vendor/rs2d/RS2DData.java:529-531 | the SW cache of that dimension is cleared |
| RS2D.CacheIsTransparent | nmrfx-processor/src/main/java/org/nmrfx/processor/datasets/vendor/rs2d/RS2DData.java:476-521 | reading through the cache gives the same value as reading the header, and a failed read leaves the cache as it was; with neither, the value is 1.0 and nothing is cached |
| RS2D.RS2DData.GetRef | nmrfx-processor/src/main/java/org/nmrfx/processor/datasets/vendor/rs2d/RS2DData.java:538-558 | the cached Ref if set; 1.0 when the header has no SR entry for the dimension; a missing offset fails; otherwise (sr+offset)/(sf-offset/1e6), cached along with the SF it read |
| RS2D.RS2DData.SetRef | nmrfx-processor/src/main/java/org/nmrfx/processor/datasets/vendor/rs2d/RS2DData.java:561-563 | the Ref cache of that dimension holds the value |
| RS2D.RS2DData.ResetRef | nmrfx-processor/src/main/java/org/nmrfx/processor/datasets/vendor/rs2d/RS2DData.java:566-568 | the Ref cache of that dimension is cleared |
| RS2D.RS2DData.GetTN | nmrfx-processor/src/main/java/org/nmrfx/processor/datasets/vendor/rs2d/RS2DData.java:576-587 | the cached nucleus, else the header's, cached only when non-empty |
| RS2D.TNCacheIsTransparent | nmrfx-processor/src/main/java/org/nmrfx/processor/datasets/vendor/rs2d/RS2DData.java:576-587 | caching never changes what getTN returns, and only an empty cache takes a non-empty value |
| RS2D.RS2DData.GetLabelNames | nmrfx-processor/src/main/java/org/nmrfx/processor/datasets/vendor/rs2d/RS2DData.java:677-687 | the label names are the nuclei, a repeated nucleus suffixed `_<i+1>`; the caches' values are unchanged |
| RS2D.LabeledLayout | nmrfx-processor/src/main/java/org/nmrfx/processor/datasets/vendor/rs2d/RS2DData.java:679-685 | label i is the nucleus, suffixed `_<i+1>` exactly when it occurred before |
| RS2D.LabeledNames | nmrfx-processor/src/main/java/org/nmrfx/processor/datasets/vendor/rs2d/RS2DData.java:677-687 | when no nucleus holds `_`, the label names are pairwise distinct |
| RS2D.LabeledDistinct | nmrfx-processor/src/main/java/org/nmrfx/processor/datasets/vendor/rs2d/RS2DData.java:681-683 | distinct nuclei are their own labels |
| RS2D.RS2DData.SetFtParamsFromPhaseMod | nmrfx-processor/src/main/java/org/nmrfx/processor/datasets/vendor/rs2d/RS2DData.java:363-387 | dimension 0 becomes complex with FT type `ft`, exchangeXY is set and negatePairs cleared; each other dimension takes its PHASE_MOD mode (NONE beyond the list); getNegatePairs holds exactly where the mode's FT type is `negate` |
| RS2D.RS2DData.ApplyMode | nmrfx-processor/src/main/java/org/nmrfx/processor/datasets/vendor/rs2d/RS2DData.java:372-385 | one dimension takes the mode's complexity, FT type and coefficients, negates imaginaries for TPPI and echo-antiecho, halves a complex size; other dimensions are unchanged |
| RS2D.Applied | nmrfx-processor/src/main/java/org/nmrfx/processor/datasets/vendor/rs2d/RS2DData.java:372-385 | the dimension settings after a mode: complex flag, FT type and coefficients from the mode, negateImag kept or set, size halved exactly when complex |
| RS2D.HalfToZero | nmrfx-processor/src/main/java/org/nmrfx/processor/datasets/vendor/rs2d/RS2DData.java:384 | Java's `/= 2`: truncation toward zero |
| RS2D.ValidDatasetPathIff | nmrfx-processor/src/main/java/org/nmrfx/processor/datasets/vendor/rs2d/RS2DData.java:1137-1140 | a path of two or more components is valid exactly when its last component is numeric and its parent is `Proc` |
| RS2D.OutputPathInsideProc | nmrfx-processor/src/main/java/org/nmrfx/processor/datasets/vendor/rs2d/RS2DData.java:1155-1158 | writeOutputFile gets past its check only for a path ending in Proc/<digits> |
| RS2D.Lookup | nmrfx-processor/src/main/java/org/nmrfx/processor/datasets/vendor/rs2d/RS2DData.java:476-521 | what a cached getter returns: the cache, else the header's value, else 1.0 (CacheIsTransparent) |
| RS2D.Cached | nmrfx-processor/src/main/java/org/nmrfx/processor/datasets/vendor/rs2d/RS2DData.java:476-521 | the cache after a cached getter: a value read from the header is kept, the 1.0 fallback is not (CacheIsTransparent) |
| RS2D.HeaderSF | nmrfx-processor/src/main/java/org/nmrfx/processor/datasets/vendor/rs2d/RS2DData.java:476-492 | the frequency from the header: base frequency plus offset/1e6, a missing offset an error (RS2DData.GetSF) |
| RS2D.HeaderSW | nmrfx-processor/src/main/java/org/nmrfx/processor/datasets/vendor/rs2d/RS2DData.java:505-521 | the spectral width from the header (RS2DData.GetSW) |
| RS2D.HeaderRef | nmrfx-processor/src/main/java/org/nmrfx/processor/datasets/vendor/rs2d/RS2DData.java:538-558 | the reference (sr + offset) / (sf - offset/1e6) when SR has an entry for the dimension; a missing offset or a zero denominator is an error (RS2DData.GetRef) |
| RS2D.TNValue | nmrfx-processor/src/main/java/org/nmrfx/processor/datasets/vendor/rs2d/RS2DData.java:576-587 | getTN on a cache slot: the cached name, else the header's, else "" (TNCacheIsTransparent) |
| RS2D.Labeled | nmrfx-processor/src/main/java/org/nmrfx/processor/datasets/vendor/rs2d/RS2DData.java:677-687 | getLabelNames: each nucleus, suffixed `_<i+1>` when an earlier label has it (LabeledLayout, LabeledNames) |
| RS2D.ModeAt | nmrfx-processor/src/main/java/org/nmrfx/processor/datasets/vendor/rs2d/RS2DData.java:363-387 | the PHASE_MOD mode of a dimension, NONE past the list (RS2DData.SetFtParamsFromPhaseMod) |
| RS2D.IsValidDatasetPath | nmrfx-processor/src/main/java/org/nmrfx/processor/datasets/vendor/rs2d/RS2DData.java:1137-1140 | isValidDatasetPath: a numeric last component under `Proc`, with a NullPointerException for a missing name or parent (ValidDatasetPathIff) |
| RS2D.CheckOutputPath | nmrfx-processor/src/main/java/org/nmrfx/processor/datasets/vendor/rs2d/RS2DData.java:1155-1158 | writeOutputFile's check: an invalid path is an IllegalArgumentException (OutputPathInsideProc) |
| RS2D.RS2DData.GetNegatePairs | nmrfx-processor/src/main/java/org/nmrfx/processor/datasets/vendor/rs2d/RS2DData.java:605-607 | getNegatePairs: whether the dimension's FT type is "negate" |
| RS2D.TNCached | nmrfx-processor/src/main/java/org/nmrfx/processor/datasets/vendor/rs2d/RS2DData.java:576-587 | the cache after getTN: a non-empty name read from the header is kept (TNCacheIsTransparent) |
| JCAMP.FTType | nmrfx-processor/src/main/java/org/nmrfx/processor/datasets/vendor/JCAMPData.java:295-316 | the transform type is one of `ft`, `rft`, `negate` |
| JCAMP.FnModeTablesAgree | nmrfx-processor/src/main/java/org/nmrfx/processor/datasets/vendor/JCAMPData.java:295-362 | for an indirect dimension the FnMODE tables agree: negated pairs exactly with `hyper` coefficients, `rft` exactly with `real`, `real` and missing modes with no coefficients, `hyper`/`hyper-r` and `echo-antiecho-r` with their vectors, and every vector has 0, 4 or 8 entries |
| JCAMP.DirectDimension | nmrfx-processor/src/main/java/org/nmrfx/processor/datasets/vendor/JCAMPData.java:301-304 | the direct dimension is `rft` exactly when AQ_mod is 2, has no coefficients or symbolic name, and negates neither pairs nor imaginaries |
| JCAMP.TempK | nmrfx-processor/src/main/java/org/nmrfx/processor/datasets/vendor/JCAMPData.java:168-172 | a missing temperature is 298 K; a reading above 150 is kept as kelvin |
| JCAMP.TempKCelsius | nmrfx-processor/src/main/java/org/nmrfx/processor/datasets/vendor/JCAMPData.java:170 | a reading from -123.15 up to 150 is Celsius and converts to c + 273.15, above 150 K |
| JCAMP.TempKIdempotent | nmrfx-processor/src/main/java/org/nmrfx/processor/datasets/vendor/JCAMPData.java:168-172 | reading a converted temperature again keeps it |
| JCAMP.SignConventions | nmrfx-processor/src/main/java/org/nmrfx/processor/datasets/vendor/JCAMPData.java:375-406 | the phase and left-shift conversions reverse the sign (and take 90 off the direct zero-order phase), so each applied twice gives back the stored value; missing records read 0, or 90 for the direct zero-order phase |
| JCAMP.FindFIDIgnoresCase | nmrfx-processor/src/main/java/org/nmrfx/processor/datasets/vendor/JCAMPData.java:714-717 | findFID judges a path and its lower-cased form alike |
| JCAMP.FindFIDExtension | nmrfx-processor/src/main/java/org/nmrfx/processor/datasets/vendor/JCAMPData.java:714-729 | any path ending in `.jdx` or `.dx`, in any case, is accepted by findFID and findData |
| JCAMP.FindFIDEndsInDx | nmrfx-processor/src/main/java/org/nmrfx/processor/datasets/vendor/JCAMPData.java:714-717 | every accepted path ends in `dx` up to case |
| JCAMP.GetPars | nmrfx-processor/src/main/java/org/nmrfx/processor/datasets/vendor/JCAMPData.java:96-115 | the two loops build Pars: the block's records first, then the document's records the block does not define |
| JCAMP.AddRecords | nmrfx-processor/src/main/java/org/nmrfx/processor/datasets/vendor/JCAMPData.java:101-112 | one loop adds each key not yet defined, valued from its store, and the defined set is exactly the names listed |
| JCAMP.ParsNames | nmrfx-processor/src/main/java/org/nmrfx/processor/datasets/vendor/JCAMPData.java:96-115 | the merged list has no repeated name, names exactly the keys of block and document, and lists the block's keys first in order |
| JCAMP.ParsValues | nmrfx-processor/src/main/java/org/nmrfx/processor/datasets/vendor/JCAMPData.java:96-115 | a key the block defines carries the block's value; any other key the document's |
| Seqs.AppendAbsentPrefix | nmrfx-processor/src/main/java/org/nmrfx/processor/datasets/vendor/JCAMPData.java:102-111 | adding names only when absent keeps the old list in front, unchanged |
| Seqs.AppendAbsentElements | nmrfx-processor/src/main/java/org/nmrfx/processor/datasets/vendor/JCAMPData.java:102-111 | the names after adding are exactly the old names and the added ones |
| Seqs.AppendAbsentDistinct | nmrfx-processor/src/main/java/org/nmrfx/processor/datasets/vendor/JCAMPData.java:102-111 | adding names only when absent to a list without repeats gives a list without repeats |
| JCAMP.AddParsValues | nmrfx-processor/src/main/java/org/nmrfx/processor/datasets/vendor/JCAMPData.java:102-111 | adding keeps the existing entries in front, and each added entry carries its store's value |
| JCAMP.AddParsNames | nmrfx-processor/src/main/java/org/nmrfx/processor/datasets/vendor/JCAMPData.java:102-111 | the names after adding are the old names with the keys not yet listed appended in order |
| JCAMP.FnCode | nmrfx-processor/src/main/java/org/nmrfx/processor/datasets/vendor/JCAMPData.java:306-307 | the FnMODE code of a dimension, -1 when the record is missing |
| JCAMP.Coefs | nmrfx-processor/src/main/java/org/nmrfx/processor/datasets/vendor/JCAMPData.java:319-339 | getCoefs: none for the direct dimension and FnMODE -1, 1, 2, 3; the hypercomplex vector for 0, 4, 5; echo-antiecho for 6; sep otherwise (FnModeTablesAgree) |
| JCAMP.SymbolicCoefs | nmrfx-processor/src/main/java/org/nmrfx/processor/datasets/vendor/JCAMPData.java:341-362 | getSymbolicCoefs: null for the direct dimension and a missing FnMODE; real for 2 and 3, hyper-r for 4, hyper for 0 and 5, echo-antiecho-r for 6, sep otherwise (FnModeTablesAgree) |
| JCAMP.NegatePairs | nmrfx-processor/src/main/java/org/nmrfx/processor/datasets/vendor/JCAMPData.java:684-686 | getNegatePairs: the dimension's FT type is "negate" (FnModeTablesAgree) |
| JCAMP.NegateImag | nmrfx-processor/src/main/java/org/nmrfx/processor/datasets/vendor/JCAMPData.java:689-691 | getNegateImag: every dimension but the direct one |
| JCAMP.PH0 | nmrfx-processor/src/main/java/org/nmrfx/processor/datasets/vendor/JCAMPData.java:375-386 | getPH0: the stored zero-order phase, less 90 on the direct dimension, negated (SignConventions) |
| JCAMP.PH1 | nmrfx-processor/src/main/java/org/nmrfx/processor/datasets/vendor/JCAMPData.java:389-396 | getPH1: the stored first-order phase negated (SignConventions) |
| JCAMP.LeftShift | nmrfx-processor/src/main/java/org/nmrfx/processor/datasets/vendor/JCAMPData.java:399-406 | getLeftShift: the stored left shift negated (SignConventions) |
| JCAMP.FindFID | nmrfx-processor/src/main/java/org/nmrfx/processor/datasets/vendor/JCAMPData.java:714-724 | findFID: the lower-cased path ends with `.jdx` or `.dx` (FindFIDIgnoresCase, FindFIDExtension, FindFIDEndsInDx) |
| JCAMP.FindData | nmrfx-processor/src/main/java/org/nmrfx/processor/datasets/vendor/JCAMPData.java:726-729 | findData delegates to findFID (FindFIDExtension) |
| JCAMP.Pars | nmrfx-processor/src/main/java/org/nmrfx/processor/datasets/vendor/JCAMPData.java:96-115 | getPars: the block's records, then the document's records the block does not define (ParsNames, ParsValues) |
| ScanGrouping.StrLessIrreflexive | nmrfx-analyst-gui/src/main/java/org/nmrfx/analyst/gui/tools/ScanTable.java:1230-1233 | String.compareTo order used by the TreeSet: no string sorts before itself |
| ScanGrouping.StrLessTransitive | nmrfx-analyst-gui/src/main/java/org/nmrfx/analyst/gui/tools/ScanTable.java:1230-1233 | the TreeSet's string order is transitive |
| ScanGrouping.StrLessTotal | nmrfx-analyst-gui/src/main/java/org/nmrfx/analyst/gui/tools/ScanTable.java:1230-1233 | any two different strings are ordered one way or the other |
| ScanGrouping.StrLessAsymmetric | nmrfx-analyst-gui/src/main/java/org/nmrfx/analyst/gui/tools/ScanTable.java:1230-1233 | two strings are never each before the other |
| ScanGrouping.TreeAddProps | nmrfx-analyst-gui/src/main/java/org/nmrfx/analyst/gui/tools/ScanTable.java:1230-1233 | TreeSet.add keeps the set ascending and holds exactly the old values plus the new one |
| ScanGrouping.TreeRemoveProps | nmrfx-analyst-gui/src/main/java/org/nmrfx/analyst/gui/tools/ScanTable.java:1197-1198 | TreeSet.remove keeps the set ascending and drops exactly that value |
| ScanGrouping.TreeOfProps | nmrfx-analyst-gui/src/main/java/org/nmrfx/analyst/gui/tools/ScanTable.java:1230-1234 | the TreeSet built from a column holds each of its values once, in ascending order |
| ScanGrouping.AscendingDistinct | nmrfx-analyst-gui/src/main/java/org/nmrfx/analyst/gui/tools/ScanTable.java:1230-1234 | a TreeSet never holds a value twice |
| ScanGrouping.IndexMapProps | nmrfx-analyst-gui/src/main/java/org/nmrfx/analyst/gui/tools/ScanTable.java:1235-1239 | numbering by map.size() gives the i-th value of the TreeSet the number i, one key per value |
| ScanGrouping.IndexMapDistinct | nmrfx-analyst-gui/src/main/java/org/nmrfx/analyst/gui/tools/ScanTable.java:1235-1239 | on values without repeats, each value is numbered by its position and there is one key per value |
| ScanGrouping.IndexMapOrdered | nmrfx-analyst-gui/src/main/java/org/nmrfx/analyst/gui/tools/ScanTable.java:1235-1239 | a value later in the TreeSet gets a larger number |
| ScanGrouping.Radix | nmrfx-analyst-gui/src/main/java/org/nmrfx/analyst/gui/tools/ScanTable.java:1256-1265 | the running multiplier mul is at least 1 |
| ScanGrouping.GroupNumberBounds | nmrfx-analyst-gui/src/main/java/org/nmrfx/analyst/gui/tools/ScanTable.java:1255-1266 | a group number lies between 0 and the product of the non-empty maps' sizes |
| ScanGrouping.GroupNumberInjective | nmrfx-analyst-gui/src/main/java/org/nmrfx/analyst/gui/tools/ScanTable.java:1255-1266 | two items get the same mixed-radix number exactly when they agree on every column whose map is non-empty |
| ScanGrouping.AgreeStep | nmrfx-analyst-gui/src/main/java/org/nmrfx/analyst/gui/tools/ScanTable.java:1255-1266 | agreement on all grouping columns is agreement on all but the last column and on the last |
| ScanGrouping.TypesOf | nmrfx-analyst-gui/src/main/java/org/nmrfx/analyst/gui/tools/ScanTable.java:731-739 | one inferred type per header |
| ScanGrouping.DoubleColumn | nmrfx-analyst-gui/src/main/java/org/nmrfx/analyst/gui/tools/ScanTable.java:648-659 | a column is typed other than S exactly when every value parses as a double, and I implies every value is a number |
| ScanGrouping.MarkRow | nmrfx-analyst-gui/src/main/java/org/nmrfx/analyst/gui/tools/ScanTable.java:648-659 | one row marks a column not-integer when its field fails Integer.parseInt, and not-double when it also fails Double.parseDouble; other columns keep their flags |
| ScanGrouping.TypeCodes | nmrfx-analyst-gui/src/main/java/org/nmrfx/analyst/gui/tools/ScanTable.java:731-739 | a column's code is I when no field failed integer parsing, else D when none failed double parsing, else S |
| ScanGrouping.ColumnFlags | nmrfx-analyst-gui/src/main/java/org/nmrfx/analyst/gui/tools/ScanTable.java:641-661 | the row loop fails exactly when some row has more fields than there are headers; otherwise each flag says whether the whole column fails that parse |
| ScanGrouping.InferColumnTypes | nmrfx-analyst-gui/src/main/java/org/nmrfx/analyst/gui/tools/ScanTable.java:641-661 | the typing pass fails exactly on a row longer than the header line, otherwise it yields TypesOf |
| ScanGrouping.TypeMap | nmrfx-analyst-gui/src/main/java/org/nmrfx/analyst/gui/tools/ScanTable.java:731-745 | columnTypes covers the headers and the standard columns, the standard columns with their fixed types |
| ScanGrouping.Headed | nmrfx-analyst-gui/src/main/java/org/nmrfx/analyst/gui/tools/ScanTable.java:731-739 | the header-to-type map has exactly the headers as keys |
| ScanGrouping.HeadedLastWins | nmrfx-analyst-gui/src/main/java/org/nmrfx/analyst/gui/tools/ScanTable.java:731-739 | a repeated header keeps the type of its last occurrence |
| ScanGrouping.TypedHeader | nmrfx-analyst-gui/src/main/java/org/nmrfx/analyst/gui/tools/ScanTable.java:731-745 | a header's recorded type is the standard column's fixed type, or else the type of its column |
| ScanGrouping.RecordTypes | nmrfx-analyst-gui/src/main/java/org/nmrfx/analyst/gui/tools/ScanTable.java:641-661 | the typing part of loadScanTable fails on a row longer than the header line, otherwise it adds TypeMap to the types already recorded |
| ScanGrouping.ParseLong | nmrfx-analyst-gui/src/main/java/org/nmrfx/analyst/gui/tools/ScanTable.java:674 | Long.parseLong accepts exactly what Integer.parseInt accepts and more, always within the 64-bit range |
| ScanGrouping.PutFields | nmrfx-analyst-gui/src/main/java/org/nmrfx/analyst/gui/tools/ScanTable.java:647-661 | a row's trimmed fields are put into fieldMap under their header keys, and keys already there stay |
| ScanGrouping.BadStandard | nmrfx-analyst-gui/src/main/java/org/nmrfx/analyst/gui/tools/ScanTable.java:667-677 | the standard-column parse throws a NumberFormatException exactly when a present row, etime or ndim field does not parse |
| ScanGrouping.RowStopAt | nmrfx-analyst-gui/src/main/java/org/nmrfx/analyst/gui/tools/ScanTable.java:647-708 | one row stops the load with IndexOutOfBounds exactly when it is longer than the header line; a row that passes fits the header line |
| ScanGrouping.LongRowStops | nmrfx-analyst-gui/src/main/java/org/nmrfx/analyst/gui/tools/ScanTable.java:647-661 | a row longer than the header line always stops the row loop, there or earlier |
| ScanGrouping.GoodRowLoads | nmrfx-analyst-gui/src/main/java/org/nmrfx/analyst/gui/tools/ScanTable.java:662-708 | a row whose standard fields parse and whose path leads to a readable file passes the load on to the next row with fieldMap updated |
| ScanGrouping.UnparsableNDimStops | nmrfx-analyst-gui/src/main/java/org/nmrfx/analyst/gui/tools/ScanTable.java:672 | headers `path`, `ndim` with the row `a.fid`, `x` stop the load with NumberFormatException on `x` before any type is recorded |
| ScanGrouping.ScanRows | nmrfx-analyst-gui/src/main/java/org/nmrfx/analyst/gui/tools/ScanTable.java:641-708 | the row loop, with fieldMap carried over from row to row, stops exactly where LoadStop says |
| ScanGrouping.LoadTypes | nmrfx-analyst-gui/src/main/java/org/nmrfx/analyst/gui/tools/ScanTable.java:641-746 | when the row loop stops, the recorded types are unchanged; otherwise no row is too long and TypeMap is added |
| ScanGrouping.NextColumnNumber | nmrfx-analyst-gui/src/main/java/org/nmrfx/analyst/gui/tools/ScanTable.java:839-853 | the scan of the column-type keys fails on a `V.` key without `:`, where `substring(2, -1)` throws; a key whose number does not parse is skipped; otherwise it returns one more than the largest parsable `V.<n>:` number in int arithmetic (Integer.MIN_VALUE after Integer.MAX_VALUE), or 0 when there is none |
| ScanGrouping.GroupMapNumbering | nmrfx-analyst-gui/src/main/java/org/nmrfx/analyst/gui/tools/ScanTable.java:1227-1242 | a column's map holds exactly the column's values, numbered below its size, one-to-one and in TreeSet order; it is empty only for an empty table |
| ScanGrouping.TableMapsCover | nmrfx-analyst-gui/src/main/java/org/nmrfx/analyst/gui/tools/ScanTable.java:1258-1265 | every item's value is a key of each column's map, so map.get never fails |
| ScanGrouping.NumberValues | nmrfx-analyst-gui/src/main/java/org/nmrfx/analyst/gui/tools/ScanTable.java:1229-1240 | the loop for one column builds that column's value numbering |
| ScanGrouping.BuildGroupMaps | nmrfx-analyst-gui/src/main/java/org/nmrfx/analyst/gui/tools/ScanTable.java:1227-1242 | makeGroupMap builds one numbering per grouping column |
| ScanGrouping.GroupsSeparate | nmrfx-analyst-gui/src/main/java/org/nmrfx/analyst/gui/tools/ScanTable.java:1249-1271 | while the product of the value counts fits in an int, items share a group exactly when they agree on every grouping column; groups lie below that product, and are all 0 with no grouping column |
| ScanGrouping.GroupOfItem | nmrfx-analyst-gui/src/main/java/org/nmrfx/analyst/gui/tools/ScanTable.java:1256-1266 | the inner loop's int accumulation (`iValue += index * mul; mul *= map.size()`, both wrapping) yields the item's mixed-radix group wrapped to 32 bits |
| ScanGrouping.AssignGroups | nmrfx-analyst-gui/src/main/java/org/nmrfx/analyst/gui/tools/ScanTable.java:1255-1270 | every item gets its group and nothing else of it changes; maxValue is the largest group, or 0, and at most Integer.MAX_VALUE |
| ScanGrouping.AssignedStep | nmrfx-analyst-gui/src/main/java/org/nmrfx/analyst/gui/tools/ScanTable.java:1255-1270 | one more item given its group keeps every earlier item's group and keeps maxValue the largest group so far, or 0 |
| ScanGrouping.FirstDate | nmrfx-analyst-gui/src/main/java/org/nmrfx/analyst/gui/tools/ScanTable.java:624-721 | firstDate is at most every item's date and Long.MAX_VALUE, and is one of the dates unless it is Long.MAX_VALUE |
| ScanGrouping.RelativeDates | nmrfx-analyst-gui/src/main/java/org/nmrfx/analyst/gui/tools/ScanTable.java:747-749 | after the shift the earliest item has time 0, none is negative, and the gaps between items are kept |
| ScanGrouping.Relativize | nmrfx-analyst-gui/src/main/java/org/nmrfx/analyst/gui/tools/ScanTable.java:719-749 | the loop finds the earliest time and shifts every item by it |
| ScanGrouping.ShiftAll | nmrfx-analyst-gui/src/main/java/org/nmrfx/analyst/gui/tools/ScanTable.java:545-548 | every item's date has the same value subtracted |
| ScanGrouping.InsertByDateProps | nmrfx-analyst-gui/src/main/java/org/nmrfx/analyst/gui/tools/ScanTable.java:543 | inserting by date keeps the list ordered by date and adds exactly that item |
| ScanGrouping.InsertByDateSorted | nmrfx-analyst-gui/src/main/java/org/nmrfx/analyst/gui/tools/ScanTable.java:543 | inserting into a date-ordered list keeps it ordered; the new head is the item or the old head |
| ScanGrouping.InsertByDateKeeps | nmrfx-analyst-gui/src/main/java/org/nmrfx/analyst/gui/tools/ScanTable.java:543 | inserting adds exactly the item to the list's multiset |
| ScanGrouping.SortByDateProps | nmrfx-analyst-gui/src/main/java/org/nmrfx/analyst/gui/tools/ScanTable.java:543 | sorting by date yields a date-ordered permutation of the items |
| ScanGrouping.CollectedItems | nmrfx-analyst-gui/src/main/java/org/nmrfx/analyst/gui/tools/ScanTable.java:525-542 | an item is made exactly for each readable file |
| ScanGrouping.SortAndShift | nmrfx-analyst-gui/src/main/java/org/nmrfx/analyst/gui/tools/ScanTable.java:543-548 | the items are sorted by date, then shifted by firstDate |
| ScanGrouping.LoadedOrder | nmrfx-analyst-gui/src/main/java/org/nmrfx/analyst/gui/tools/ScanTable.java:521-551 | the loaded list is ordered by relative time, starts at 0, and is a permutation of the readable files' items |
| ScanGrouping.MinDate | nmrfx-analyst-gui/src/main/java/org/nmrfx/analyst/gui/tools/ScanTable.java:536-538 | the earliest date is one of the dates and at most each of them |
| ScanGrouping.StrLess | nmrfx-analyst-gui/src/main/java/org/nmrfx/analyst/gui/tools/ScanTable.java:1230-1233 | the String.compareTo order of the TreeSet: a proper prefix, or smaller at the first difference (StrLessIrreflexive, StrLessTransitive, StrLessTotal) |
| ScanGrouping.TreeAdd | nmrfx-analyst-gui/src/main/java/org/nmrfx/analyst/gui/tools/ScanTable.java:1230-1233 | TreeSet.add on an ascending sequence (TreeAddProps) |
| ScanGrouping.TreeRemove | nmrfx-analyst-gui/src/main/java/org/nmrfx/analyst/gui/tools/ScanTable.java:1197-1198 | TreeSet.remove on an ascending sequence (TreeRemoveProps) |
| ScanGrouping.TreeOf | nmrfx-analyst-gui/src/main/java/org/nmrfx/analyst/gui/tools/ScanTable.java:1230-1234 | the TreeSet of a column's values (TreeOfProps) |
| ScanGrouping.IndexMap | nmrfx-analyst-gui/src/main/java/org/nmrfx/analyst/gui/tools/ScanTable.java:1235-1239 | each TreeSet value numbered by map.size() at its insertion (IndexMapProps, IndexMapOrdered) |
| ScanGrouping.GroupNumber | nmrfx-analyst-gui/src/main/java/org/nmrfx/analyst/gui/tools/ScanTable.java:1255-1266 | the exact mixed-radix group number of an item over the non-empty maps, before int wrapping (GroupNumberBounds, GroupNumberInjective) |
| ScanGrouping.TypeOf | nmrfx-analyst-gui/src/main/java/org/nmrfx/analyst/gui/tools/ScanTable.java:731-739 | a column's type: I when every value is an integer, else D when every value is a number, else S (DoubleColumn, TypeCodes) |
| ScanGrouping.VNumber | nmrfx-analyst-gui/src/main/java/org/nmrfx/analyst/gui/tools/ScanTable.java:842-850 | the number of a `V.<n>:` key: Integer.parseInt of the text between `V.` and the first `:` (NextColumnNumber) |
| ScanGrouping.GroupMapOf | nmrfx-analyst-gui/src/main/java/org/nmrfx/analyst/gui/tools/ScanTable.java:1227-1242 | makeGroupMap's map for one grouping column (GroupMapNumbering, TableMapsCover) |
| ScanGrouping.GroupOf | nmrfx-analyst-gui/src/main/java/org/nmrfx/analyst/gui/tools/ScanTable.java:1256-1266 | the group getGroups gives the i-th item: the mixed-radix number wrapped to 32 bits, always an int (GroupsSeparate) |
| ScanGrouping.ShiftDates | nmrfx-analyst-gui/src/main/java/org/nmrfx/analyst/gui/tools/ScanTable.java:545-548 | each item's date made relative to firstDate (RelativeDates) |
| ScanGrouping.InsertByDate | nmrfx-analyst-gui/src/main/java/org/nmrfx/analyst/gui/tools/ScanTable.java:543 | the insertion step of the sort by date (InsertByDateProps) |
| ScanGrouping.SortByDate | nmrfx-analyst-gui/src/main/java/org/nmrfx/analyst/gui/tools/ScanTable.java:543 | List.sort by date (SortByDateProps) |
| ScanGrouping.Collected | nmrfx-analyst-gui/src/main/java/org/nmrfx/analyst/gui/tools/ScanTable.java:525-542 | the items of the readable files, in file order (CollectedItems) |
| ScanGrouping.VName | nmrfx-analyst-gui/src/main/java/org/nmrfx/analyst/gui/tools/ScanTable.java:853 | the name getNextColumnName returns: `V.` followed by the number (NextColumnNumber), which may be negative after wrapping |
| AnalystScanTable.Palette | nmrfx-analyst-gui/src/main/java/org/nmrfx/analyst/gui/tools/ScanTable.java:98-112 | COLORS has 17 entries |
| AnalystScanTable.BuildPalette | nmrfx-analyst-gui/src/main/java/org/nmrfx/analyst/gui/tools/ScanTable.java:98-112 | the static initialiser fills COLORS with black, then one colour per hue in three brightness tiers |
| AnalystScanTable.GroupColor | nmrfx-analyst-gui/src/main/java/org/nmrfx/analyst/gui/tools/ScanTable.java:1244-1247 | a negative index is out of bounds; indices past the end share the last colour; only group 0 is black |
| AnalystScanTable.GroupableOrData | nmrfx-analyst-gui/src/main/java/org/nmrfx/analyst/gui/tools/ScanTable.java:1172-1182 | no column is both groupable and data; the standard, group and dataset columns are neither; a data column is exactly a non-standard one with a ':' |
| AnalystScanTable.DatasetScan | nmrfx-analyst-gui/src/main/java/org/nmrfx/analyst/gui/tools/ScanTable.java:680-688 | firstDatasetName is the first non-empty dataset name, or empty when there is none; combineFileMode holds exactly when every later name equals it |
| AnalystScanTable.ConsistentAppend | nmrfx-analyst-gui/src/main/java/org/nmrfx/analyst/gui/tools/ScanTable.java:683-687 | a name that is missing or agrees with the first keeps combineFileMode |
| AnalystScanTable.ConsistentSame | nmrfx-analyst-gui/src/main/java/org/nmrfx/analyst/gui/tools/ScanTable.java:683-687 | when combineFileMode holds every non-empty name equals the first |
| AnalystScanTable.ScanTable.constructor | nmrfx-analyst-gui/src/main/java/org/nmrfx/analyst/gui/tools/ScanTable.java:142-171 | init records the standard columns' types, group as an integer column; everything else starts empty |
| AnalystScanTable.ScanTable.MakeGroupMap | nmrfx-analyst-gui/src/main/java/org/nmrfx/analyst/gui/tools/ScanTable.java:1227-1242 | groupMap is rebuilt with one numbering per grouping column |
| AnalystScanTable.ScanTable.GetGroups | nmrfx-analyst-gui/src/main/java/org/nmrfx/analyst/gui/tools/ScanTable.java:1249-1271 | every item gets its mixed-radix group and groupSize is one above the largest in int arithmetic (Integer.MIN_VALUE when the largest is Integer.MAX_VALUE) |
| AnalystScanTable.ScanTable.HitColumnGrouper | nmrfx-analyst-gui/src/main/java/org/nmrfx/analyst/gui/tools/ScanTable.java:1193-1208 | the lower-cased column joins the grouping columns or leaves them if it was one; the set stays ordered and the groups are redone |
| AnalystScanTable.ScanTable.GetNextColumnName | nmrfx-analyst-gui/src/main/java/org/nmrfx/analyst/gui/tools/ScanTable.java:832-858 | a known descriptor keeps its name; a new one takes the given name, or V.<n> one above every parsable `V.<n>:` column (wrapping at Integer.MAX_VALUE); the descriptor is recorded; a `V.` key without `:` throws and records nothing, while an unparsable number is skipped |
| AnalystScanTable.ScanTable.TypeColumns | nmrfx-analyst-gui/src/main/java/org/nmrfx/analyst/gui/tools/ScanTable.java:641-775 | with lower-cased header keys and a blank path test: a long row, an unparsable row/etime/ndim field (caught), a blank path, no scan directory or an unreadable file stop the load and leave columnTypes unchanged; otherwise columnTypes gains TypeMap |
| AnalystScanTable.ScanTable.RelativeTimes | nmrfx-analyst-gui/src/main/java/org/nmrfx/analyst/gui/tools/ScanTable.java:719-749 | every item's time is made relative to the earliest |
| AnalystScanTable.ScanTable.LoadScanFiles | nmrfx-analyst-gui/src/main/java/org/nmrfx/analyst/gui/tools/ScanTable.java:521-551 | the items are the readable files' items sorted by date, with times relative to the earliest |
| AnalystScanTable.Tier | nmrfx-analyst-gui/src/main/java/org/nmrfx/analyst/gui/tools/ScanTable.java:98-112 | the brightness of palette entry i: 0.8 up to entry 4, 0.65 up to 8, 0.5 beyond (BuildPalette) |
| AnalystScanTable.IsGroupable | nmrfx-analyst-gui/src/main/java/org/nmrfx/analyst/gui/tools/ScanTable.java:1172-1182 | a column that can be used for grouping (GroupableOrData) |
| AnalystScanTable.IsData | nmrfx-analyst-gui/src/main/java/org/nmrfx/analyst/gui/tools/ScanTable.java:1172-1182 | a column of measured data: a name with `:` that is not a standard column (GroupableOrData) |
| ControlsScanTable.GroupColor | src/main/java/org/nmrfx/processor/gui/controls/ScanTable.java:1094-1097 | a negative index is out of bounds; indices from 4 on are blue; only group 0 is black |
| ControlsScanTable.ExtraColumnsStep | src/main/java/org/nmrfx/processor/gui/controls/ScanTable.java:826-851 | each header that is not skipped adds one column at the end |
| ControlsScanTable.ExtraColumnsMembers | src/main/java/org/nmrfx/processor/gui/controls/ScanTable.java:826-851 | the extra columns are exactly the headers that are not skipped, each of the kind its recorded type gives (S when it has none) |
| ControlsScanTable.ScanTable.constructor | src/main/java/org/nmrfx/processor/gui/controls/ScanTable.java:115-150 | init puts up four columns and records the standard columns' types, group among them |
| ControlsScanTable.ScanTable.MakeGroupMap | src/main/java/org/nmrfx/processor/gui/controls/ScanTable.java:1076-1092 | groupMap is rebuilt with one numbering per grouping column |
| ControlsScanTable.ScanTable.GetGroups | src/main/java/org/nmrfx/processor/gui/controls/ScanTable.java:1099-1118 | every item gets its mixed-radix group and groupSize is one above the largest in int arithmetic (Integer.MIN_VALUE when the largest is Integer.MAX_VALUE) |
| ControlsScanTable.ScanTable.GetNextColumnName | src/main/java/org/nmrfx/processor/gui/controls/ScanTable.java:727-760 | a descriptor that is not a measurement gets ""; a known measurement keeps its name; a new one gets V.<n> one above every `V.<n>:` column (wrapping at Integer.MAX_VALUE) and is recorded |
| ControlsScanTable.ScanTable.UpdateTable | src/main/java/org/nmrfx/processor/gui/controls/ScanTable.java:789-854 | the seven fixed columns, then one per header that is not skipped, in header order; the groups are redone |
| ControlsScanTable.ScanTable.AddTableColumn | src/main/java/org/nmrfx/processor/gui/controls/ScanTable.java:766-787 | a name some column has changes nothing; otherwise its type is recorded and the table rebuilt from the current headers plus the new one |
| ControlsScanTable.ScanTable.AddedColumnShown | src/main/java/org/nmrfx/processor/gui/controls/ScanTable.java:766-851 | a new column shows up exactly when its name is not skipped and its type is D, I or S |
| ControlsScanTable.ScanTable.TypeColumns | src/main/java/org/nmrfx/processor/gui/controls/ScanTable.java:557-661 | with header keys as written and an empty path test: a long row, an unparsable row/etime/ndim field (thrown to the caller), an empty path, no scan directory or an unreadable file stop the load and leave columnTypes unchanged; otherwise columnTypes gains TypeMap |
| ControlsScanTable.ScanTable.RelativeTimes | src/main/java/org/nmrfx/processor/gui/controls/ScanTable.java:635-665 | every item's time is made relative to the earliest |
| ControlsScanTable.ScanTable.LoadScanFiles | src/main/java/org/nmrfx/processor/gui/controls/ScanTable.java:414-441 | substring(beginIndex) throws exactly when a readable file's path is too short; otherwise the items are the readable files' items under their shortened paths, sorted by date and made relative |
| ControlsScanTable.MeasureType | src/main/java/org/nmrfx/processor/gui/controls/ScanTable.java:727-735 | a measurement descriptor: longer than four characters and starting vol_, min_, max_ or ext_ (ScanTable.GetNextColumnName) |
| ControlsScanTable.Skipped | src/main/java/org/nmrfx/processor/gui/controls/ScanTable.java:826-829 | a header updateTable leaves out: a standard name in any case, or exactly `group` (ExtraColumnsMembers) |
| ControlsScanTable.ExtraColumns | src/main/java/org/nmrfx/processor/gui/controls/ScanTable.java:826-851 | the extra columns updateTable appends, one per kept header, in header order (ExtraColumnsStep, ExtraColumnsMembers) |
| ControlsScanTable.Tail | src/main/java/org/nmrfx/processor/gui/controls/ScanTable.java:430 | substring(beginIndex) of a path long enough for it; a shorter path is the error LoadScanFiles reports (ScanTable.LoadScanFiles) |
| RefPanel.FixedDecimalPrefixes | nmrfx-analyst-gui/src/main/java/org/nmrfx/processor/gui/RefManager.java:92-101 | every prefix of a text the decimal filter keeps is kept too, so the field can be typed character by character |
| RefPanel.PositiveFromString | nmrfx-analyst-gui/src/main/java/org/nmrfx/processor/gui/RefManager.java:71-80 | a value read by the integer converter is at least 0, fits an int and is the trimmed text's integer; a negative number is rejected |
| RefPanel.PositiveRoundTrip | nmrfx-analyst-gui/src/main/java/org/nmrfx/processor/gui/RefManager.java:60-88 | what the converter shows always passes the integer filter and reads back as the value clamped at 0 |
| RefPanel.PositiveFilteredReads | nmrfx-analyst-gui/src/main/java/org/nmrfx/processor/gui/RefManager.java:60-80 | an empty text the filter keeps fails to read; a non-empty one reads as its digits exactly when they fit in an int |
| RefPanel.FixedDecimalFromString | nmrfx-analyst-gui/src/main/java/org/nmrfx/processor/gui/RefManager.java:116-122 | the empty text reads as 0.0; any other text reads as Double.valueOf of it |
| RefPanel.PointDigitsSplit | nmrfx-analyst-gui/src/main/java/org/nmrfx/processor/gui/RefManager.java:96 | the first point splits the filter's digits-and-point part into two runs of digits |
| RefPanel.PointDigitsMantissa | nmrfx-analyst-gui/src/main/java/org/nmrfx/processor/gui/RefManager.java:96 | a digits-and-point text is a decimal mantissa exactly when it holds a digit |
| RefPanel.FixedDecimalFilteredReads | nmrfx-analyst-gui/src/main/java/org/nmrfx/processor/gui/RefManager.java:92-122 | a text the decimal filter keeps reads without error exactly when it is empty or holds a digit |
| RefPanel.FilteredLiteral | nmrfx-analyst-gui/src/main/java/org/nmrfx/processor/gui/RefManager.java:96 | a kept non-empty text needs no trimming and is a decimal literal exactly when it holds a digit |
| RefPanel.LetterScanLast | nmrfx-analyst-gui/src/main/java/org/nmrfx/processor/gui/RefManager.java:218-223 | the letter scan ends with the last letter of the name, or with what it started from when no letter follows |
| RefPanel.RefValueIsLastLetter | nmrfx-analyst-gui/src/main/java/org/nmrfx/processor/gui/RefManager.java:211-226 | the REF value is empty exactly for dimension 0 or a nucleus name without letters, and otherwise is the name's last letter |
| RefPanel.ValueOf | nmrfx-analyst-gui/src/main/java/org/nmrfx/processor/gui/RefManager.java:600 | DataProps.valueOf gives the property with exactly that name, or none when no property has it |
| RefPanel.PythonString | nmrfx-analyst-gui/src/main/java/org/nmrfx/processor/gui/RefManager.java:289-327 | getPythonString builds the indented, lower-cased call of the property with its rendered values |
| RefPanel.RenderArgs | nmrfx-analyst-gui/src/main/java/org/nmrfx/processor/gui/RefManager.java:295-324 | the loop writes the rendered values separated by commas |
| RefPanel.RenderValue | nmrfx-analyst-gui/src/main/java/org/nmrfx/processor/gui/RefManager.java:299-323 | a value is written bare when it parses as a double and does not end in a letter, or is False or True, and never for LABEL; otherwise it is quoted |
| RefPanel.UnquoteRendered | nmrfx-analyst-gui/src/main/java/org/nmrfx/processor/gui/RefManager.java:299-323 | every rendered value reads back unchanged once its quotes are stripped |
| RefPanel.SplitCall | nmrfx-analyst-gui/src/main/java/org/nmrfx/processor/gui/RefManager.java:590-594 | setDataFields' split of a header line: an empty line throws, a line without '(' or a final ')' is skipped, otherwise the upper-cased name and the arguments |
| RefPanel.WrittenLineReads | nmrfx-analyst-gui/src/main/java/org/nmrfx/processor/gui/RefManager.java:289-327 | a line getPythonString writes (without indent) splits back into the property's name and the written arguments |
| RefPanel.KeysDistinct | nmrfx-analyst-gui/src/main/java/org/nmrfx/processor/gui/RefManager.java:229 | the fields of different dimensions have different keys |
| RefPanel.AssignFromSets | nmrfx-analyst-gui/src/main/java/org/nmrfx/processor/gui/RefManager.java:602-606 | a successful assignment stores each converted value under its dimension's key and leaves every other field alone |
| RefPanel.ApplyLine | nmrfx-analyst-gui/src/main/java/org/nmrfx/processor/gui/RefManager.java:589-608 | a header line changes the chart settings only for ACQORDER, ACQARRAY or FIXDSP, changes fields only for a known property, and a skipped line changes nothing |
| RefPanel.PropertyNamed | nmrfx-analyst-gui/src/main/java/org/nmrfx/processor/gui/RefManager.java:595-600 | a property's name reads back as that property and is none of the chart settings' names |
| RefPanel.PropertyLine | nmrfx-analyst-gui/src/main/java/org/nmrfx/processor/gui/RefManager.java:599-606 | a property line assigns its converted arguments to the property's fields, dimension by dimension |
| RefPanel.SkipLineSetsFlags | nmrfx-analyst-gui/src/main/java/org/nmrfx/processor/gui/RefManager.java:249-251 | a SKIP line sets each dimension's flag to whether its argument is "true" in any case |
| RefPanel.ChartLine | nmrfx-analyst-gui/src/main/java/org/nmrfx/processor/gui/RefManager.java:594-596 | ACQORDER sets the acquisition order, ACQARRAY the array sizes and FIXDSP the DSP flag (on only for "True"), with no error and the properties unchanged |
| RefPanel.UnknownNameLine | nmrfx-analyst-gui/src/main/java/org/nmrfx/processor/gui/RefManager.java:597-598 | a name that is neither a chart setting nor a property throws IllegalArgument from DataProps.valueOf and changes nothing |
| RefPanel.PropertyLineFails | nmrfx-analyst-gui/src/main/java/org/nmrfx/processor/gui/RefManager.java:599-606 | a property line with a missing field or a malformed value throws and leaves the chart settings alone |
| RefPanel.RefManager.constructor | nmrfx-analyst-gui/src/main/java/org/nmrfx/processor/gui/RefManager.java:284-287 | the panel starts with no fields and the given chart settings |
| RefPanel.RefManager.AssignValues | nmrfx-analyst-gui/src/main/java/org/nmrfx/processor/gui/RefManager.java:601-606 | the inner loop sets one field per dimension, stopping at the first that throws |
| RefPanel.RefManager.SetDataFields | nmrfx-analyst-gui/src/main/java/org/nmrfx/processor/gui/RefManager.java:587-611 | the header lines are applied in order, stopping at the first that throws |
| RefPanel.RefManager.ReadHeaderLine | nmrfx-analyst-gui/src/main/java/org/nmrfx/processor/gui/RefManager.java:590-608 | one header line is applied as ApplyLine says |
| RefPanel.PermsCount | nmrfx-analyst-gui/src/main/java/org/nmrfx/processor/gui/RefManager.java:355-357 | the permutation iterator yields n! orderings |
| RefPanel.PermsSound | nmrfx-analyst-gui/src/main/java/org/nmrfx/processor/gui/RefManager.java:355-358 | every ordering it yields is a permutation of the list |
| RefPanel.PermsComplete | nmrfx-analyst-gui/src/main/java/org/nmrfx/processor/gui/RefManager.java:355-358 | every permutation of the list is yielded |
| RefPanel.AcqOrderChoicesCount | nmrfx-analyst-gui/src/main/java/org/nmrfx/processor/gui/RefManager.java:346-368 | there are (nDim-1)! acquisition-order choices |
| RefPanel.AcqOrderChoicesSound | nmrfx-analyst-gui/src/main/java/org/nmrfx/processor/gui/RefManager.java:346-368 | each choice is the nDim prefix (bruker or rs2d only) followed by the digits of a permutation of 1..nDim-1 |
| RefPanel.AcqOrderChoicesComplete | nmrfx-analyst-gui/src/main/java/org/nmrfx/processor/gui/RefManager.java:346-368 | every permutation of 1..nDim-1 behind the prefix is offered |
| RefPanel.AcqOrderChoicesRoundTrip | nmrfx-analyst-gui/src/main/java/org/nmrfx/processor/gui/RefManager.java:346-368 | for bruker or rs2d data with at most 9 dimensions, every choice is accepted by the RS2D/JCAMP setAcqOrder modelled in AcqOrder and RS2D's getAcqOrderShort gives it back; the Bruker reader's own setAcqOrder is not part of this model |
| RefPanel.PositiveIntegerFilter | nmrfx-analyst-gui/src/main/java/org/nmrfx/processor/gui/RefManager.java:60-69 | an edit is kept exactly when the new text matches [0-9]* (PositiveFilteredReads) |
| RefPanel.FixedDecimalFilter | nmrfx-analyst-gui/src/main/java/org/nmrfx/processor/gui/RefManager.java:92-101 | an edit is kept exactly when the new text matches -?([0-9]*)?(\\.[0-9]*)? (FixedDecimalPrefixes, FixedDecimalFilteredReads) |
| RefPanel.PositiveToString | nmrfx-analyst-gui/src/main/java/org/nmrfx/processor/gui/RefManager.java:82-88 | the converter's toString: a negative value shows as "0" (PositiveRoundTrip) |
| RefPanel.RefValue | nmrfx-analyst-gui/src/main/java/org/nmrfx/processor/gui/RefManager.java:211-226 | DataProps.REF.getDataValue: nothing for dimension 0, else the last letter of the nucleus name (RefValueIsLastLetter) |
| RefPanel.Unquoted | nmrfx-analyst-gui/src/main/java/org/nmrfx/processor/gui/RefManager.java:299-323 | whether getPythonString writes a value bare (RenderValue, UnquoteRendered) |
| RefPanel.PythonLine | nmrfx-analyst-gui/src/main/java/org/nmrfx/processor/gui/RefManager.java:289-327 | the line getPythonString writes (PythonString, WrittenLineReads) |
| RefPanel.Converted | nmrfx-analyst-gui/src/main/java/org/nmrfx/processor/gui/RefManager.java:124-254 | the value setObjectValue(map, value, dim) stores: parseInt for the sizes, parseDouble for SF and SW, parseBoolean for SKIP, the text otherwise (PropertyLine, PropertyLineFails) |
| RefPanel.SetObjectValue | nmrfx-analyst-gui/src/main/java/org/nmrfx/processor/gui/RefManager.java:124-254 | setObjectValue: the converted value set on the field under its key, a missing field a NullPointerException (AssignFromSets) |
| RefPanel.GetSkip | nmrfx-analyst-gui/src/main/java/org/nmrfx/processor/gui/RefManager.java:540-543 | getSkip: false without a SKIP field, else the stored Boolean (SkipLineSetsFlags) |
| RefPanel.Perms | nmrfx-analyst-gui/src/main/java/org/nmrfx/processor/gui/RefManager.java:355-358 | the orderings the permutation iterator yields (PermsCount, PermsSound, PermsComplete; order not modelled, see Left out) |
| RefPanel.AcqOrderChoices | nmrfx-analyst-gui/src/main/java/org/nmrfx/processor/gui/RefManager.java:346-368 | setupAcqOrder's choices: the nDim prefix for bruker and rs2d data, then each ordering of 1..nDim-1 (AcqOrderChoicesSound, AcqOrderChoicesComplete, AcqOrderChoicesRoundTrip) |
| NMRStarReader.BondOrder | src/main/java/org/nmrfx/chemistry/io/NMRStarReader.java:126-135 | a bond is DOUBLE exactly when its order text starts with DOUB in upper case, TRIPLE exactly when it starts with TRIP, and SINGLE otherwise |
| NMRStarReader.BondOrderIgnoresCase | src/main/java/org/nmrfx/chemistry/io/NMRStarReader.java:126-135 | the bond order does not depend on the order text's case |
| NMRStarReader.SetFlags | src/main/java/org/nmrfx/chemistry/io/NMRStarReader.java:823-831 | each peak flag is set exactly when the flag text has a '1' at its position; positions past the text clear the flag |
| NMRStarReader.FlagText | src/main/java/org/nmrfx/chemistry/io/NMRStarReader.java:823-831 | writing the flags as 0/1 characters gives a text that reads back as the same flags |
| NMRStarReader.RunEnd | src/main/java/org/nmrfx/chemistry/io/NMRStarReader.java:973-980 | the end of the run starting at a row: every row before it continues the run and the run is closed there |
| NMRStarReader.RunsAreMaximal | src/main/java/org/nmrfx/chemistry/io/NMRStarReader.java:973-990 | the runs cover every row once, in order, each holds rows of one peak and spectral dimension, and neighbouring runs differ in one of them |
| NMRStarReader.ReadCouplings | src/main/java/org/nmrfx/chemistry/io/NMRStarReader.java:962-991 | the _Peak_coupling rows give one coupling pattern per maximal run, holding the run's coupling values, types and strong-coupling values and the first row's intensity |
| NMRStarReader.ReadTransitions | src/main/java/org/nmrfx/chemistry/io/NMRStarReader.java:1042-1059 | the spectral transition rows are grouped into one complex coupling per maximal run of rows with the same peak and dimension |
| NMRStarReader.CompoundKey | src/main/java/org/nmrfx/chemistry/io/NMRStarReader.java:628-631 | the compound key is entity-assembly.entity.comp-index with "." read as assembly 1, and no key for an entity "?" |
| NMRStarReader.CompoundKeyParts | src/main/java/org/nmrfx/chemistry/io/NMRStarReader.java:628-631 | the key splits back on '.' into the assembly, entity and comp index when none of them holds a '.' |
| NMRStarReader.AsymLabel | src/main/java/org/nmrfx/chemistry/io/NMRStarReader.java:404-407 | a given Asym_ID is kept, and "." becomes the letter 'A' plus the entity's index |
| NMRStarReader.AsymLabelsDistinct | src/main/java/org/nmrfx/chemistry/io/NMRStarReader.java:404-407 | entities without an Asym_ID get different labels |
| NMRStarReader.ChainLabel | src/main/java/org/nmrfx/chemistry/io/NMRStarReader.java:408-411 | a given PDB chain label is kept and "." becomes the asym label |
| NMRStarReader.MoleculeName | src/main/java/org/nmrfx/chemistry/io/NMRStarReader.java:528-531 | the assembly name is kept and "?" becomes noname |
| NMRStarReader.DihedralBounds | src/main/java/org/nmrfx/chemistry/io/NMRStarReader.java:1444-1451 | the upper bound must parse; the lower bound is 1.8 for "." and otherwise must parse |
| NMRStarReader.DistanceBounds | src/main/java/org/nmrfx/chemistry/io/NMRStarReader.java:1611-1622 | the upper bound is 1000000 for "." and the lower bound 1.8 for "."; other values must parse |
| NMRStarReader.PeakListDims | src/main/java/org/nmrfx/chemistry/io/NMRStarReader.java:693-711 | a text-format list or a "?" or "." dimension count is skipped; otherwise the count must parse and be at least the number of spectral dimensions |
| NMRStarReader.AcceptedModelsStop | src/main/java/org/nmrfx/chemistry/io/NMRStarReader.java:1209 | after a row that stops the reading (a Model_ID or a coordinate that does not parse), later rows change nothing |
| NMRStarReader.TrackConformers | src/main/java/org/nmrfx/chemistry/io/NMRStarReader.java:1174-1216 | the models whose coordinates are cleared are the accepted rows' models that differ from the row before; the active set holds exactly those; an unparsable Model_ID stops the reading before its model is recorded, and an unparsable x, y or z stops it after, both with a NumberFormatException |
| NMRStarReader.NewModelsLast | src/main/java/org/nmrfx/chemistry/io/NMRStarReader.java:1209-1216 | the last cleared model is the last accepted row's model |
| NMRStarReader.NewModelsChange | src/main/java/org/nmrfx/chemistry/io/NMRStarReader.java:1209-1216 | each cleared model differs from the one cleared before it |
| NMRStarReader.NewModelsElements | src/main/java/org/nmrfx/chemistry/io/NMRStarReader.java:1209-1216 | the cleared models are exactly the accepted models, apart from -1 |
| NMRStarReader.ProcessShiftsUnreachable | src/main/java/org/nmrfx/chemistry/io/NMRStarReader.java:1638-1719 | as written, the shifts branch never completes: with three arguments it reads argv[3] and throws |
| NMRStarReader.Process | src/main/java/org/nmrfx/chemistry/io/NMRStarReader.java:1638-1719 | an argument count other than 0 or 3 is an illegal argument; no arguments builds everything |
| NMRStarReader.ProcessShifts | src/main/java/org/nmrfx/chemistry/io/NMRStarReader.java:1638-1719 | with the arguments "shifts", fromSet and toSet, the chemical shifts are copied from fromSet to toSet |
| NMRStarReader.FlagAt | src/main/java/org/nmrfx/chemistry/io/NMRStarReader.java:823-831 | flag i of a _Peak.Flag text: set exactly when the text has `1` at position i (SetFlags, FlagText) |
| NMRStarReader.Runs | src/main/java/org/nmrfx/chemistry/io/NMRStarReader.java:973-980 | the maximal runs of rows with equal Peak_ID and Spectral_dim_ID (RunsAreMaximal) |
| NMRStarReader.Patterns | src/main/java/org/nmrfx/chemistry/io/NMRStarReader.java:962-991 | one coupling pattern per run, with the run's values and the first row's intensity (ReadCouplings) |
| NMRStarReader.RowGroups | src/main/java/org/nmrfx/chemistry/io/NMRStarReader.java:1042-1059 | the rows of each run, the components of one complex coupling each (ReadTransitions) |
| NMRStarReader.AcceptedModels | src/main/java/org/nmrfx/chemistry/io/NMRStarReader.java:1174-1217 | the models of the accepted conformer rows up to the first row that stops the reading, and whether one did: an unparsable Model_ID stops before its model is recorded, an unparsable x, y or z after (AcceptedModelsStop, TrackConformers) |
| NMRStarReader.NewModels | src/main/java/org/nmrfx/chemistry/io/NMRStarReader.java:1209-1214 | the models whose coordinates are cleared: each accepted model that differs from the one before (NewModelsLast, NewModelsChange, NewModelsElements) |
| NMRStarReader.FirstBadCoord | src/main/java/org/nmrfx/chemistry/io/NMRStarReader.java:1215-1217 | the first of x, y, z that Double.parseDouble refuses, and none exactly when all three parse |
| NMRStarReader.ConformerRowStep | src/main/java/org/nmrfx/chemistry/io/NMRStarReader.java:1196-1217 | one conformer row: an unparsable Model_ID fails; a new model is cleared and becomes the last; an unparsable coordinate then fails, all as AcceptedModels and NewModels say |
| NMRStarReader.ShiftSets | src/main/java/org/nmrfx/chemistry/io/NMRStarReader.java:1714-1717 | the shift-set copy with its set numbers read by Integer.parseInt from two arguments |
| NMRStarReader.ProcessAsWritten | src/main/java/org/nmrfx/chemistry/io/NMRStarReader.java:1638-1719 | process(argv) as written: three arguments with a `shifts` prefix read argv[3] and fail (ProcessShiftsUnreachable) |
| ChartAxis.Ceil | src/main/java/org/nmrfx/chart/Axis.java:254 | Math.ceil: the least integer at or above x |
| ChartAxis.Axis.constructor | src/main/java/org/nmrfx/chart/Axis.java:73-79 | the orientation, default bounds and size are kept; the bounds start at the defaults, the origin at (100, 800), not reversed and without zero forced in |
| ChartAxis.Axis.Scale | src/main/java/org/nmrfx/chart/Axis.java:127-136 | calcScale: the scale times the range is the axis length in pixels |
| ChartAxis.Axis.SetMinMax | src/main/java/org/nmrfx/chart/Axis.java:276-284 | setMinMax sets both bounds |
| ChartAxis.Axis.SetLowerBound | src/main/java/org/nmrfx/chart/Axis.java:89-91 | the lower bound is set |
| ChartAxis.Axis.SetUpperBound | src/main/java/org/nmrfx/chart/Axis.java:105-107 | the upper bound is set |
| ChartAxis.Axis.SetOrigin | src/main/java/org/nmrfx/chart/Axis.java:157-160 | the origin is set |
| ChartAxis.Axis.AutoRange | src/main/java/org/nmrfx/chart/Axis.java:222-270 | the axis is set to the automatic range of the data and that range is returned |
| ChartAxis.ZeroAdjusted | src/main/java/org/nmrfx/chart/Axis.java:225-233 | with zero included the data range is widened to take in 0, otherwise it is kept |
| ChartAxis.CeilSteps | src/main/java/org/nmrfx/chart/Axis.java:250-264 | the ceil(d / step) + 1 steps added at an end reach at least d + step |
| ChartAxis.AutoRangeContains | src/main/java/org/nmrfx/chart/Axis.java:222-270 | a min raised to zero stays at zero; centred ticks keep the data range; otherwise both ends lie at least a minor step beyond the data range |
| ChartAxis.TickDecimals | src/main/java/org/nmrfx/chart/Axis.java:333-338 | the tick-label decimals are clamped to [0, 10] |
| ChartAxis.DisplayEnds | src/main/java/org/nmrfx/chart/Axis.java:138-155 | the bounds map to the two ends of the axis, swapped when reversed, the vertical axis growing upwards |
| ChartAxis.ValueOfDisplayPosition | src/main/java/org/nmrfx/chart/Axis.java:113-155 | getValueForDisplay inverts getDisplayPosition in all four orientation and reverse cases |
| ChartAxis.DisplayPositionOfValue | src/main/java/org/nmrfx/chart/Axis.java:113-155 | getDisplayPosition inverts getValueForDisplay |
| ChartAxis.Axis.Range | src/main/java/org/nmrfx/chart/Axis.java:272-274 | getRange: the upper bound less the lower (Scale) |
| ChartAxis.Axis.DisplayPosition | src/main/java/org/nmrfx/chart/Axis.java:138-155 | getDisplayPosition: the canvas position of a value in each orientation and reverse case (DisplayEnds, DisplayPositionOfValue) |
| ChartAxis.Axis.ValueForDisplay | src/main/java/org/nmrfx/chart/Axis.java:113-125 | getValueForDisplay: the value at a canvas position (ValueOfDisplayPosition) |
| ChartAxis.AutoRanged | src/main/java/org/nmrfx/chart/Axis.java:222-270 | the bounds autoRange chooses from the tick layout (AutoRangeContains) |
| Annotations.AnnoRectangle.constructor | nmrfx-analyst-gui/src/main/java/org/nmrfx/processor/gui/annotations/AnnoRectangle.java:35-43 | the corners are kept; the rectangle starts unselected with no active handle |
| Annotations.AnnoRectangle.SetX1 | nmrfx-analyst-gui/src/main/java/org/nmrfx/processor/gui/annotations/AnnoRectangle.java:49-51 | setX1 sets x1 |
| Annotations.AnnoRectangle.SetY1 | nmrfx-analyst-gui/src/main/java/org/nmrfx/processor/gui/annotations/AnnoRectangle.java:57-59 | setY1 sets y1 |
| Annotations.AnnoRectangle.SetX2 | nmrfx-analyst-gui/src/main/java/org/nmrfx/processor/gui/annotations/AnnoRectangle.java:65-67 | setX2 sets x2 |
| Annotations.AnnoRectangle.SetY2 | nmrfx-analyst-gui/src/main/java/org/nmrfx/processor/gui/annotations/AnnoRectangle.java:73-75 | setY2 sets y2 |
| Annotations.AnnoRectangle.Hit | nmrfx-analyst-gui/src/main/java/org/nmrfx/processor/gui/annotations/AnnoRectangle.java:78-97 | a hit is a point in the drawn box; a hit snapshots the corners for a drag; in select mode a selectable rectangle becomes selected exactly when hit |
| Annotations.AnnoRectangle.Draw | nmrfx-analyst-gui/src/main/java/org/nmrfx/processor/gui/annotations/AnnoRectangle.java:100-118 | the drawn box spans the transformed corners, ordered so that xp1 <= xp2 and yp1 <= yp2, with its width and height |
| Annotations.AnnoRectangle.HitHandle | nmrfx-analyst-gui/src/main/java/org/nmrfx/processor/gui/annotations/AnnoRectangle.java:144-157 | the active handle is the first corner near the point, in the order (x1,y1), (x1,y2), (x2,y2), (x2,y1), or -1 when none is |
| Annotations.AnnoRectangle.Move | nmrfx-analyst-gui/src/main/java/org/nmrfx/processor/gui/annotations/AnnoRectangle.java:159-181 | a drag with no handle moves all four coordinates from the snapshot; a handle moves only its own corner |
| Annotations.MoveKeepsShape | nmrfx-analyst-gui/src/main/java/org/nmrfx/processor/gui/annotations/AnnoRectangle.java:159-181 | for world-coordinate moves, a drag without a handle translates the rectangle keeping its size, and a handle moves its own corner by the drag and keeps the opposite one |
| Annotations.InBox | nmrfx-analyst-gui/src/main/java/org/nmrfx/processor/gui/annotations/AnnoRectangle.java:83 | Rectangle2D.contains, edges included (AnnoRectangle.Hit) |
| Annotations.Moved | nmrfx-analyst-gui/src/main/java/org/nmrfx/processor/gui/annotations/AnnoRectangle.java:159-181 | the corners after a drag from the snapshot: all four without a handle, one corner with one (AnnoRectangle.Move, MoveKeepsShape) |
| Annotations.AnnoRectangle.GetX1 | nmrfx-analyst-gui/src/main/java/org/nmrfx/processor/gui/annotations/AnnoRectangle.java:45-47 | getX1 returns the stored x1 (AnnoRectangle.SetX1) |
| Annotations.AnnoRectangle.GetY1 | nmrfx-analyst-gui/src/main/java/org/nmrfx/processor/gui/annotations/AnnoRectangle.java:53-55 | getY1 returns the stored y1 (AnnoRectangle.SetY1) |
| Annotations.AnnoRectangle.GetX2 | nmrfx-analyst-gui/src/main/java/org/nmrfx/processor/gui/annotations/AnnoRectangle.java:61-63 | getX2 returns the stored x2 (AnnoRectangle.SetX2) |
| Annotations.AnnoRectangle.GetY2 | nmrfx-analyst-gui/src/main/java/org/nmrfx/processor/gui/annotations/AnnoRectangle.java:69-71 | getY2 returns the stored y2 (AnnoRectangle.SetY2) |
| KeyBindings.Registered | nmrfx-analyst-gui/src/main/java/org/nmrfx/processor/gui/spectra/KeyBindings.java:72-79 | an empty key string fails at substring(0, 1); otherwise the key maps to the action, its first key is present (newly as a placeholder with no action), and every other key is kept |
| KeyBindings.GlobalKeyMap.constructor | nmrfx-analyst-gui/src/main/java/org/nmrfx/processor/gui/spectra/KeyBindings.java:63-70 | the global map starts empty |
| KeyBindings.GlobalKeyMap.Register | nmrfx-analyst-gui/src/main/java/org/nmrfx/processor/gui/spectra/KeyBindings.java:63-70 | registerGlobalKeyAction updates the global map as Registered says |
| KeyBindings.ShortString | nmrfx-analyst-gui/src/main/java/org/nmrfx/processor/gui/spectra/KeyBindings.java:146 | the short string is the buffer's first two characters, or all of it when shorter |
| KeyBindings.TrimKeepsPrefix | nmrfx-analyst-gui/src/main/java/org/nmrfx/processor/gui/spectra/KeyBindings.java:146-147 | trimming a buffer that starts with two non-blank characters keeps them |
| KeyBindings.KeyBindings.constructor | nmrfx-analyst-gui/src/main/java/org/nmrfx/processor/gui/spectra/KeyBindings.java:72-79 | a chart's bindings start with no keys and an empty buffer |
| KeyBindings.KeyBindings.RegisterKeyAction | nmrfx-analyst-gui/src/main/java/org/nmrfx/processor/gui/spectra/KeyBindings.java:72-79 | registerKeyAction updates the chart's map as Registered says |
| KeyBindings.KeyBindings.DeregisterKeyAction | nmrfx-analyst-gui/src/main/java/org/nmrfx/processor/gui/spectra/KeyBindings.java:81-83 | deregisterKeyAction removes exactly that key |
| KeyBindings.KeyBindings.KeyTyped | nmrfx-analyst-gui/src/main/java/org/nmrfx/processor/gui/spectra/KeyBindings.java:131-366 | a space into an empty buffer focuses the chart and stores nothing; any other key is appended and dispatched, and the buffer is cleared exactly when the dispatch says so |
| KeyBindings.TwoKeySequence | nmrfx-analyst-gui/src/main/java/org/nmrfx/processor/gui/spectra/KeyBindings.java:72-79 | after registering a two-key sequence whose first key had no action, the first key waits and keeps the buffer, and the second runs the action and clears it |
| KeyBindings.DeregisterUndoesRegister | nmrfx-analyst-gui/src/main/java/org/nmrfx/processor/gui/spectra/KeyBindings.java:72-83 | deregistering a new two-key sequence undoes its registration except for the first-key placeholder |
| KeyBindings.LocalShadowsGlobal | nmrfx-analyst-gui/src/main/java/org/nmrfx/processor/gui/spectra/KeyBindings.java:150-164 | a short string the chart maps dispatches the same whatever the global map holds, and clears the buffer exactly when it has an action |
| KeyBindings.UnknownPrefixClears | nmrfx-analyst-gui/src/main/java/org/nmrfx/processor/gui/spectra/KeyBindings.java:150-365 | a short string neither map nor any built-in command knows clears the buffer and does nothing |
| KeyBindings.DispatchJump | nmrfx-analyst-gui/src/main/java/org/nmrfx/processor/gui/spectra/KeyBindings.java:307-363 | an unclaimed jump key dispatches to the jump commands on the trimmed buffer |
| KeyBindings.JumpDimension | nmrfx-analyst-gui/src/main/java/org/nmrfx/processor/gui/spectra/KeyBindings.java:309-331 | jx, jy and jz name dimensions 0, 1 and 2: f shows that dimension in full, c centres it, and m goes to the maximum plane only for z |
| KeyBindings.Dispatch | nmrfx-analyst-gui/src/main/java/org/nmrfx/processor/gui/spectra/KeyBindings.java:146-366 | the step keyTyped takes: the chart's map, then the global map, on the buffer's first two characters, a null action waiting for the next key; else the built-in switch (LocalShadowsGlobal, UnknownPrefixClears, DispatchJump) |
| KeyBindings.Builtin | nmrfx-analyst-gui/src/main/java/org/nmrfx/processor/gui/spectra/KeyBindings.java:165-366 | the built-in switch: a first key waits, `aa`/`as` pick peaks with one dataset shown and alert otherwise, the axis keys wait for a digit, jump keys go to Jump, an unknown prefix clears (UnknownPrefixClears) |
| KeyBindings.JumpDim | nmrfx-analyst-gui/src/main/java/org/nmrfx/processor/gui/spectra/KeyBindings.java:313 | the dimension of a jump key: its second character counted from `x` (JumpDimension) |
| KeyBindings.Jump | nmrfx-analyst-gui/src/main/java/org/nmrfx/processor/gui/spectra/KeyBindings.java:307-363 | the jump commands full, max plane, centre, first and last plane, and `jz<digits>` to a plane once the sequence is complete (DispatchJump, JumpDimension) |
| AngleBoundaries.CheckedBounds | src/main/java/org/nmrfx/structure/chemistry/energy/AngleBoundary.java:60-68 | the bounds are accepted exactly when the lower lies in [-180, 180] and the upper between it and 360; accepted bounds are converted to radians; others fail with "Invalid angle bounds" (the source appends the two bounds to the message; the model leaves them out) |
| AngleBoundaries.Adopted | src/main/java/org/nmrfx/structure/chemistry/energy/AngleBoundary.java:75-80 | an atom not registered adopts nothing; a registered one adopts the property under the registered property's name; a registered null throws |
| AngleBoundaries.Registering | src/main/java/org/nmrfx/structure/chemistry/energy/AngleBoundary.java:113-118 | every matched atom is mapped to the property and every other atom keeps its entry |
| AngleBoundaries.AngleBoundary.constructor | src/main/java/org/nmrfx/structure/chemistry/energy/AngleBoundary.java:58-82 | the bounds, scale, atom and property are kept and the index starts at -1 |
| AngleBoundaries.AngleBoundary.SetIndex | src/main/java/org/nmrfx/structure/chemistry/energy/AngleBoundary.java:121-123 | setIndex sets the index |
| AngleBoundaries.NewAngleBoundary | src/main/java/org/nmrfx/structure/chemistry/energy/AngleBoundary.java:58-82 | invalid bounds and an atom name matching nothing are rejected; otherwise the bound takes the first matched atom and adopts the property registered for it |
| AngleBoundaries.NewNamedAngleBoundary | src/main/java/org/nmrfx/structure/chemistry/energy/AngleBoundary.java:99-119 | invalid bounds are rejected with the registry unchanged; otherwise every matched atom is registered under the named property (or null) and the bound keeps the last atom |
| AngleBoundaries.NamedThenUnnamed | src/main/java/org/nmrfx/structure/chemistry/energy/AngleBoundary.java:58-119 | an atom registered by a named bound makes a later unnamed bound on it adopt the same property, or fail when the name was unknown |
| TableCopy.RowsToCopy | nmrfx-utils/src/main/java/org/nmrfx/utils/TableUtils.java:27-31 | all rows in order when nothing is selected or all are forced, otherwise the selection in its order |
| TableCopy.RowCells | nmrfx-utils/src/main/java/org/nmrfx/utils/TableUtils.java:35-44 | one cell text per column |
| TableCopy.Lines | nmrfx-utils/src/main/java/org/nmrfx/utils/TableUtils.java:32-44 | the header line followed by one line per copied row |
| TableCopy.CopyTableToClipboard | nmrfx-utils/src/main/java/org/nmrfx/utils/TableUtils.java:27-48 | the clipboard text is the header line and each copied row's line, cells separated by tabs, every line ended by the separator |
| TableCopy.AppendCell | nmrfx-utils/src/main/java/org/nmrfx/utils/TableUtils.java:37-42 | one cell is appended, followed by a tab unless it is in the last column |
| TableCopy.AppendRow | nmrfx-utils/src/main/java/org/nmrfx/utils/TableUtils.java:35-44 | the inner loop appends the row's cells joined by tabs |
| TableCopy.LinesStep | nmrfx-utils/src/main/java/org/nmrfx/utils/TableUtils.java:35-44 | copying one more row adds its line at the end |
| TableCopy.TerminatedIsJoin | nmrfx-utils/src/main/java/org/nmrfx/utils/TableUtils.java:32-44 | lines each ended by the separator are the lines joined by it, plus an empty last piece |
| TableCopy.CopyReadsBack | nmrfx-utils/src/main/java/org/nmrfx/utils/TableUtils.java:27-48 | when no header or cell holds a tab or newline, the copy splits on newlines into the header line, one line per row and an empty end, and each line splits on tabs back into its cells |
| TableCopy.LinesFree | nmrfx-utils/src/main/java/org/nmrfx/utils/TableUtils.java:32-44 | no line of the copy holds a newline when no header or cell does |
| TableCopy.RowReadsBack | nmrfx-utils/src/main/java/org/nmrfx/utils/TableUtils.java:35-44 | a row's line split on tabs gives back its cells |
| TableCopy.Terminated | nmrfx-utils/src/main/java/org/nmrfx/utils/TableUtils.java:32-44 | lines each followed by the separator (TerminatedIsJoin, CopyReadsBack) |
| DatasetCompare.Mismatch | nmrfx-processor/src/test/java/org/nmrfx/processor/datasets/DatasetCompare.java:18 | Files.mismatch: -1 exactly for equal files, otherwise the first position where they differ or where the shorter ends |
| DatasetCompare.Compare | nmrfx-processor/src/test/java/org/nmrfx/processor/datasets/DatasetCompare.java:10-21 | -1 exactly for equal files; the shorter length when the lengths differ; otherwise the first differing byte |
| DatasetCompare.Parts | nmrfx-processor/src/test/java/org/nmrfx/processor/datasets/DatasetCompare.java:23-58 | compareParts gives three numbers: size error, data position and header position |
| DatasetCompare.CompareParts | nmrfx-processor/src/test/java/org/nmrfx/processor/datasets/DatasetCompare.java:23-58 | the loops compute Parts with the header size the file name gives |
| DatasetCompare.CompareDetailed | nmrfx-processor/src/test/java/org/nmrfx/processor/datasets/DatasetCompare.java:60-74 | all three are -1 exactly for equal files; otherwise compareParts' result |
| DatasetCompare.PartsOfDifferentFiles | nmrfx-processor/src/test/java/org/nmrfx/processor/datasets/DatasetCompare.java:38-54 | for files of one length that differ there is no size error; a first difference inside the header is reported there, otherwise in the data |
| DatasetCompare.FloatMismatch | nmrfx-processor/src/test/java/org/nmrfx/processor/datasets/DatasetCompare.java:86-93 | the index of the first float that differs under Float.compare, -1 when none does, and an end-of-file error on a partial float |
| DatasetCompare.ReadFloats | nmrfx-processor/src/test/java/org/nmrfx/processor/datasets/DatasetCompare.java:86-93 | the reading loop computes FloatMismatch from float 0 |
| DatasetCompare.CompareFloat | nmrfx-processor/src/test/java/org/nmrfx/processor/datasets/DatasetCompare.java:76-97 | compareFloat with its first-float case corrected: the shorter length, or the first differing float, or -1 |
| DatasetCompare.CompareFloatAsWritten | nmrfx-processor/src/test/java/org/nmrfx/processor/datasets/DatasetCompare.java:76-97 | compareFloat as written, where a difference at float 0 is reported as -1 |
| DatasetCompare.FloatCompareEqual | nmrfx-processor/src/test/java/org/nmrfx/processor/datasets/DatasetCompare.java:76-97 | the corrected comparison gives -1 exactly when the lengths agree, hold whole floats, and no float differs |
| DatasetCompare.NoDifferenceFrom | nmrfx-processor/src/test/java/org/nmrfx/processor/datasets/DatasetCompare.java:86-93 | with no differing float the loop ends with -1 |
| DatasetCompare.FirstFloatDifferenceHidden | nmrfx-processor/src/test/java/org/nmrfx/processor/datasets/DatasetCompare.java:89 | as written, files differing only in their first float compare as equal, while the corrected comparison reports float 0 |
| DatasetCompare.FirstDiff | nmrfx-processor/src/test/java/org/nmrfx/processor/datasets/DatasetCompare.java:23-58 | the header and data scans of compareParts: the first index in a range where the files differ, -1 when none does |
| DatasetCompare.HeaderSize | nmrfx-processor/src/test/java/org/nmrfx/processor/datasets/DatasetCompare.java:39-40 | the header size compareParts skips: none for data.dat, the NV header for `.nv`, the UCSF header otherwise (DatasetCompare.CompareParts) |
| DatasetCompare.FloatCompare | nmrfx-processor/src/test/java/org/nmrfx/processor/datasets/DatasetCompare.java:76-97 | compareFloat as intended: the shorter length when the lengths differ, else the first float Float.compare finds different, -1 when none, an end of file on a partial float (FloatCompareEqual) |
| DatasetCompare.FloatCompareAsWritten | nmrfx-processor/src/test/java/org/nmrfx/processor/datasets/DatasetCompare.java:76-97 | compareFloat as written, where a difference in float 0 leaves the result at -1 (FirstFloatDifferenceHidden) |
| StorageResize.Rank | nmrfx-processor/src/main/java/org/nmrfx/processor/datasets/StorageResizer.java:58-71 | an index tuple in the box has a position below the box's point count |
| StorageResize.DigitSplit | nmrfx-processor/src/main/java/org/nmrfx/processor/datasets/StorageResizer.java:58-71 | a position is a number of whole blocks plus a remainder below the block size |
| StorageResize.DigitSplitBound | nmrfx-processor/src/main/java/org/nmrfx/processor/datasets/StorageResizer.java:58-71 | a position inside s blocks has fewer than s whole blocks |
| StorageResize.DigitSplitUnique | nmrfx-processor/src/main/java/org/nmrfx/processor/datasets/StorageResizer.java:58-71 | the split of a * p + r with r below p is (a, r) |
| StorageResize.Unrank | nmrfx-processor/src/main/java/org/nmrfx/processor/datasets/StorageResizer.java:58-71 | the index tuple at a position lies in the box and has that position |
| StorageResize.UnrankRank | nmrfx-processor/src/main/java/org/nmrfx/processor/datasets/StorageResizer.java:58-71 | every index tuple of the box is the one at its own position, so the counter visits each point once |
| StorageResize.Storage.constructor | nmrfx-processor/src/main/java/org/nmrfx/processor/datasets/StorageResizer.java:24-48 | a new storage has the given sizes and kind and holds nothing |
| StorageResize.Storage.SetFloat | nmrfx-processor/src/main/java/org/nmrfx/processor/datasets/StorageResizer.java:69 | writing a point changes that point only |
| StorageResize.Storage.Zero | nmrfx-processor/src/main/java/org/nmrfx/processor/datasets/StorageResizer.java:30-47 | every point reads 0 |
| StorageResize.CopyTo | nmrfx-processor/src/main/java/org/nmrfx/processor/datasets/StorageResizer.java:58-71 | every point of the source box is copied to the same index of the target and every other target point is kept |
| StorageResize.CopiedStep | nmrfx-processor/src/main/java/org/nmrfx/processor/datasets/StorageResizer.java:58-71 | copying one more position changes only the index at that position |
| StorageResize.ResizeDim | nmrfx-processor/src/main/java/org/nmrfx/processor/datasets/StorageResizer.java:19-56 | the target is in memory exactly when the source is and the new box takes fewer than 137e6 bytes; each point of the new box holds the source's value where the source has one and 0 elsewhere; the source is unchanged |
| StorageResize.Value | nmrfx-processor/src/main/java/org/nmrfx/processor/datasets/StorageResizer.java:68 | the value a storage holds at an index tuple, 0 for a point never written (Storage.Zero, Storage.SetFloat) |
| StorageResize.Copied | nmrfx-processor/src/main/java/org/nmrfx/processor/datasets/StorageResizer.java:58-71 | a target's value once the first k positions of the box are copied (CopyTo, CopiedStep) |
| StorageResize.Storage.GetFloat | nmrfx-processor/src/main/java/org/nmrfx/processor/datasets/StorageResizer.java:68 | getFloat: the value last set at the index tuple, 0 where nothing was set (Storage.SetFloat) |

## Left out

- Floating point: Java `double` arithmetic is modelled over exact reals, so rounding, NaN and infinities are not captured.
- The JavaFX GUI (tables, charts, dialogs, drag and drop, colours as drawn), file and network I/O, and the exceptions I/O raises are not modelled. Directory listings, file contents and headers are inputs instead.
- Superpose: the rigid-body superposition (SuperMol), RMSD calculation, PDB reading and writing and the molecule selection language are outside the model. Their results are inputs: pair results `(iFix, iMove, rms)`, per-atom B-factors, residue lists and the structure list.
- Util.NefMatch: the text before the wildcard is compared literally (ASCII case-insensitively). The source compiles it as a java.util.regex pattern, so its metacharacters are live: `nefMatch("HA1", "H.%")` and `nefMatch("5", "C*%")` are true in the source and false in the model, and a malformed prefix such as `H(` throws PatternSyntaxException where the model returns false. The model agrees with the source only for a prefix that is `RegexLiteral`, which `Util.NefMatchDigits` requires.
- Text: the character and number helpers are ASCII-only. `IsDigit`, `IsLetter`, `LowerChar`, `UpperChar`, `Lower`, `Upper`, `EqualsIgnoreCase`, `ParseInt`, `IsNumeric` and `IsJavaDouble`/`ParseDouble` stand for Java's Unicode-aware `Character.isDigit`/`isLetter`, `String.toLowerCase`/`toUpperCase`, `Integer.parseInt` (which accepts any Unicode decimal digit), `StringUtils.isNumeric` and `Double.parseDouble`. Non-ASCII letters and digits, non-ASCII case mappings and hexadecimal floating-point literals are not accepted by the model. This affects `NMRStarReader.BondOrder`, `AnalystScanTable.ScanTable.HitColumnGrouper`, `AnalystScanTable.IsGroupable`, `RefPanel.RefValueIsLastLetter`, `RefPanel.PythonString`, `JCAMP.FindFIDIgnoresCase`, `RS2D.ValidDatasetPathIff` and the digit keys of KeyBindings. nefMatch's `CASE_INSENSITIVE` flag is ASCII-only in the source as well.
- Util.NefMatchAtom: the partner atom and the methyl parent come from the unseen molecule, so they are inputs.
- PeakLists.FoldPPM: requires a positive fDelta when the bounds differ. With fDelta ≤ 0 the source loops forever.
- PeakLists.PeakList: `ReIndex`, `GetPeak`, `Compress`, `ReNumber`, `RemovePeak` and `RemoveFromList` require that no peak object occurs twice in the list (`Distinct(peaks)`). The source's `addPeak` appends without checking, so its list could hold the same peak twice; the model does not cover that list, where re-indexing would give one object two positions.
- PeakLists: the figure-of-merit (`setFOM`, erf) and the peak contents beyond status, index, id and dimension labels are not modelled.
- Resonances.AtomResonance.GetPPMDev: returns the variance (clamped at 0). The final `Math.sqrt` has no exact counterpart over reals.
- Resonances: the active molecule is an input, given as the set of its atom names (none when no molecule is active).
- GroupIndex.GroupToIndices: the error results carry the exception kind and a message. The NotStrictlyPositiveException text is built from the wrapped size without Java's localized number formatting. The `System.out.println` trace the method prints (the word `iter`, then one line per expanded index) is console output and is not modelled.
- GroupIndex.New: the clone is modelled by reading the caller's array into a value. Later writes to that array cannot reach the stored indices.
- RS2D.HeaderRef: a zero denominator `sf - offset / 1e6` gives an error result (`ZeroDivision`); `RS2D.RS2DData.GetRef` returns that error without caching it, so `ref[iDim]` stays empty. The source's double division yields ±Infinity or NaN there, which it caches and returns; `real` has no such values.
- RS2D: `getAcqOrder` returns its cached array itself, so a caller could alias it; the model returns a copy. Reading the binary data (`readVector`, `copyFloatVecData`) and the `Proc` directory I/O are not modelled. The header parameters and the phase-mode attributes are inputs.
- JCAMP: parsing JCAMP-DX files happens in an outside library. The labelled records, `$FnMODE`, `$AQ_mod` and the temperature are inputs.
- ScanGrouping.GroupsSeparate: proved only while the product of the grouping columns' value counts is at most 2^31. Beyond that the group numbers wrap as in the source (`ScanGrouping.GroupOfItem` and `ScanGrouping.GroupOf` model the wrapping), different value combinations can get the same group, and no separation is promised.
- ScanGrouping: the sorted set of a column's values is modelled as an ascending sequence of distinct strings.
- ControlsScanTable.ExtraColumnsMembers: states which headers become extra columns, not the order they are appended in.
- ControlsScanTable: the header, XML and data-frame export (`updateDataFrame`) is not modelled.
- RefPanel.Perms: the orderings come out in remove-one-and-recurse order. The source's `PermutationIterator` yields them in Steinhaus–Johnson–Trotter order, so its combo box lists the same choices in a different order. No contract states an order.
- AngleBoundaries.CheckedBounds: the error text is "Invalid angle bounds". The source appends `": " + lower + " " + upper`; printing Java doubles is not modelled, so the bounds are left out of the message.
- RefPanel: the CSV parser that splits a header line's arguments is an input function, and the chart-processor settings (ACQORDER, ACQARRAY, FIXDSP) are a value the header lines update; the unseen chart processor itself is not modelled.
- RefPanel: the text `FixedDecimalConverter` prints for a number (its decimal format) is not modelled.
- NMRStarReader.AsymLabel: requires `'A' + row` below 0xD800. Above that a Dafny `char` cannot hold the code unit that Java's `char` arithmetic yields.
- NMRStarReader: the STAR3 parser library, the molecule and peak-list objects the reader fills, and `NvUtil.toInt` (an input function) are outside the model. The number of peak flags is the flag array's length.
- ChartAxis: tick placement (`log10`, `ceil` of scaled values, drawing) is out of scope; the tick calculation is an input function.
- ChartAxis.Axis.DisplayPosition, ChartAxis.Axis.ValueForDisplay: require a non-empty range (and, for the latter, a non-zero length); Java's double division yields an infinity or NaN there, which `real` has no value for.
- Annotations: the position-type transforms and moves are function parameters. The other annotation kinds, which delegate to those transforms and to font metrics, are not modelled.
- KeyBindings: the key monitor is unseen. Storing a key appends it to the buffer, clearing empties it, and whether a sequence is complete is an input. The chart actions are abstract command values. `keyPressed` and the data-format handlers are not modelled.
- AngleBoundaries: matching the atom name against the molecule is an input (the matched atoms' full names in order). The registry of angle properties is a parameter. π is a decimal constant.
- TableCopy: cell text is a function of row and column. The line separator is a parameter. Handing the text to the system clipboard is not modelled.
- DatasetCompare: the NV and UCSF header sizes are parameters, and files are byte sequences.
- StorageResize: the index-counter order is the row-major `Rank` order, and a storage layout is its dimension sizes. Naming, moving and writing the file-backed storage are not modelled. A storage is an unbounded map from index tuples to values, so a copy into a smaller new box that writes source points outside that box stores them there; the source's target has the finite layout of the new sizes, which the model does not capture.
- StorageResize.CopyTo: requires that the source and target are different storages.

## Findings

| source | as written | input that shows it | evidently intended | confidence | as-written member | corrected member |
|---|---|---|---|---|---|---|
| nmrfx-processor/src/main/java/org/nmrfx/processor/datasets/DatasetGroupIndex.java:71-73 | the `],[` separator is added only when the builder holds more than `[`, so a group with no indices swallows the separator after it | groups with indices `[]` and `[0]` give `[1]` | one bracketed list per group, `[],[1]` | not executed | GroupIndex.SkipStringLosesSeparator | GroupIndex.SkipStringOneListPerGroup |
| src/main/java/org/nmrfx/chemistry/io/NMRStarReader.java:1714-1717 | after accepting exactly three arguments, the `shifts` branch reads `argv[3]` and `argv[4]` | arguments `x`, `y`, `shifts` raise an index-out-of-bounds error | read the set numbers from the arguments the usage message names, so the copy runs | not executed | NMRStarReader.ProcessShiftsUnreachable | NMRStarReader.ProcessShifts |
| nmrfx-processor/src/test/java/org/nmrfx/processor/datasets/DatasetCompare.java:89 | a difference at float index 0 is reported as -1, the value for "equal" | reference bytes `3f 80 00 00` against test bytes `40 00 00 00` give -1 | report index 0 | not executed | DatasetCompare.FirstFloatDifferenceHidden | DatasetCompare.FloatCompareEqual |
