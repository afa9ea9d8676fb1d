# ID3 decision-tree learner: a Dafny model

This project models the core of ML-ID3, a learner for binary decision trees.
A data set is a list of attribute names, a table of boolean observations, and
one boolean class label per observation. The learner builds a tree by the
ID3 rule:

- A set whose labels are all equal becomes a leaf.
- So does a set that cannot be split any further. That leaf predicts the
  majority label, and a tie goes to `true`.
- Any other set becomes a decision node on the attribute with the highest
  information gain. The rows with value 0 go to the left child and the rows
  with value 1 go to the right child, each without that column.

The model has two modules that follow the two source files:

- `DataSets` (`datasets.dfy`) models `DataSet`:
  - The value is a `datatype`.
  - The constructor is `NewDataSet`. It returns `Result<DataSet>`, whose
    `Error` variants are the constructor's exceptions.
  - `toString` is an imperative method. It is proved equal to a rendering
    function `Render`.
- `ID3` (`id3.dfy`) models the learner:
  - `split`, the counter loops of `calcConditionalEntropies`,
    `determineIndexOfSplit`, `getMajorityLabelValue`, `convertSetToString`
    and `learnTree` are methods with loops or recursion. Each is proved equal
    to a specification function.
  - `removeElement`, `isVaried`, `determineIsLeaf` and `createDiagram` are
    functions, as in the source.
  - The mutable `Tree` class is the datatype `Leaf(predictedValue) | Node(attributeName, left, right)`.
    Each node is built from its two children once they are learned, so the
    setters are not needed.

The information gain is floating-point logarithm arithmetic. It enters the
model as a parameter `gain: Tally -> real`, applied to the four integer
counters of each column. Those counters are modelled exactly. The set size
and the label counts, which the two entropies also use, follow from the four
counters. The gain parameter is the only external input.

Java exceptions become `Err` values:

- `IndexOutOfBounds`: a list is read past its end. This happens with
  `observations.get(0)` on no rows, with a row shorter than row 0 in the
  counters, and with a column that a row lacks in `split`.
- `AttributeCountMismatch` and `LabelCountMismatch`: the two
  `IllegalArgumentException`s of the constructor.

`Valid` is exactly what the constructor checks. In particular it checks only
the width of row 0, so ragged tables are accepted. `Rectangular` is the
stronger shape in which every row is as wide as the header.

## Model

| member | source | states |
|---|---|---|
| DataSets.NewDataSet | src/DataSet.java:32-53 | The result is Ok exactly when there is a row, row 0 has one value per name, and every row has a label. On Ok the getters return exactly the given sequences. Otherwise the first failing check gives its error: no rows gives IndexOutOfBounds, then a width mismatch, then a label-count mismatch. |
| DataSets.RaggedTableAccepted | src/DataSet.java:33-36 | Only row 0's width is checked. A table whose second row is wider than the header is accepted. |
| DataSets.ToString | src/DataSet.java:62-84 | The StringBuilder loops produce exactly `Render(d)`: the header line, then one line per observation. |
| DataSets.JoinSnoc | src/DataSet.java:66-71 | On the header, each further name adds one space and then the name. |
| DataSets.SplitJoin | src/DataSet.java:66-71 | The header round-trips. Splitting the joined names at single spaces gives back the names, when there is at least one name and no name contains a space. |
| DataSets.CellsAt | src/DataSet.java:74-77 | Value k of a row is written at position 2k as '1' or '0', followed by a space. |
| DataSets.RowLineShape | src/DataSet.java:74-82 | A row line has 2·width characters of values. Then comes the label digit, if the row has values, and then a line break. A row with no values loses its label, and its line is just "\n". |
| DataSets.RowLineInjective | src/DataSet.java:74-82 | A row line with at least one value determines the row and its label. |
| DataSets.RowLinesNewlines | src/DataSet.java:73-83 | The row lines contain exactly one line break per observation. |
| DataSets.RenderLineCount | src/DataSet.java:62-84 | When no name contains a line break, the text has 1 + \|observations\| lines. |
| ID3.ConvertSetToString | src/ID3.java:27-49 | The duplicate serialiser produces exactly `Render(d)`. |
| ID3.SerialisersAgree | src/ID3.java:27-49 | `convertSetToString` and `DataSet.toString` return the same string for every data set. |
| ID3.RemoveElement | src/ID3.java:237-241 | The copy is one shorter. It keeps the elements before `index` and shifts those after it down by one. |
| ID3.ReinsertRemoved | src/ID3.java:237-241 | Re-inserting the removed value at `index` restores the original row: only that position was dropped. |
| ID3.RemoveElementSubset | src/ID3.java:237-241 | Every element of the copy occurs in the original. |
| ID3.PositionsShape | src/ID3.java:222-230 | The parent positions routed to one side are strictly increasing. Each holds a row with that value at `index`, and every such row is among them. |
| ID3.BranchRowsAt | src/ID3.java:222-230 | Row k of a branch is the parent row at position p[k], without column `index`. |
| ID3.BranchLabelsAt | src/ID3.java:222-230 | Label k of a branch is the label of the parent row at position p[k]. |
| ID3.BranchIsStableSelection | src/ID3.java:222-230 | Each branch is a stable selection. It holds exactly the rows with that value at `index`, in their original order, each with the column removed and with its own label. |
| ID3.BranchSizes | src/ID3.java:222-230 | \|left\| + \|right\| = \|observations\|. |
| ID3.SplitSets | src/ID3.java:215-235 | These cases fail with IndexOutOfBounds: a row without column `index`, and a column index beyond the names. A successful split gives two valid children, whose names are the parent's names without entry `index`. The left child holds the value-0 branch's rows and labels, and the right child the value-1 branch's. |
| ID3.Split | src/ID3.java:215-235 | The loop over the rows, the name removal and the two constructors return exactly `SplitSets(d, index)`, errors included. |
| ID3.SplitOutcome | src/ID3.java:215-235 | On a rectangular table the split succeeds exactly when both values occur in the column. A failure is always IndexOutOfBounds, from constructing an empty branch. On success both children get the reduced names and are rectangular, and their row counts add up to the parent's (which rows each holds is `BranchIsStableSelection`). |
| ID3.BranchOfRectangular | src/ID3.java:222-233 | For a table of uniform width, a branch is empty exactly when no row has that value. Its rows are one value narrower, and it has one label per row. |
| ID3.CountRowsIsBranchCount | src/ID3.java:164-176 | A counter for column i counts the rows with one given label among the rows routed to one given branch. |
| ID3.TallyIsBranchCounts | src/ID3.java:164-176 | The four counters of column i are the true and false label counts of the two branches that a split on i produces. |
| ID3.TallyPartition | src/ID3.java:164-176 | Exactly one counter is bumped per row. So the four counters sum to \|observations\|, and the two counters of a branch sum to the number of rows routed to it. |
| ID3.CountRow | src/ID3.java:165-174 | A pass of the inner loop over one row bumps the counter that matches each cell and the row's label. For every column exactly one counter is bumped. |
| ID3.CountBranches | src/ID3.java:156-183 | The nested loops over the four counter arrays fail exactly when some row is shorter than row 0. Otherwise they yield, for each column, the counters `TallyOf` defines. |
| ID3.CalcInfoGain | src/ID3.java:145-154 | The gains are the gain of each column's counters, or the counters' IndexOutOfBounds. |
| ID3.SplitIndex | src/ID3.java:131-143 | The index the scan settles on is a valid index of a non-empty gain list, and 0 for an empty one. |
| ID3.SplitIndexIsEarliestMaximum | src/ID3.java:131-143 | If some gain is positive, the chosen index has the maximum gain, and every earlier gain is strictly smaller. If no gain is positive, the index is 0. |
| ID3.SpamExampleSplitsOnFirstColumn | test/ID3Test.java:66-77 | For the spam example's gains [0.28, 0.24, 0.035] the first column is chosen. |
| ID3.DetermineIndexOfSplit | src/ID3.java:131-143 | The loop returns the earliest index of the maximum gain when that maximum is positive, and 0 otherwise. This equals `SplitIndex`. |
| ID3.IsVaried | src/ID3.java:286-292 | True exactly when some value differs from the given one. |
| ID3.MajorityTiesGoToTrue | src/ID3.java:294-305 | The majority label is true exactly when at least half of the labels are true. |
| ID3.GetMajorityLabelValue | src/ID3.java:294-305 | The counting loop returns true exactly when count(true) ≥ count(false). |
| ID3.DetermineIsLeaf | src/ID3.java:256-284 | The checks run in order. Pure labels give a leaf predicting `labels[0]`. Otherwise a set with no columns gives a majority leaf. Otherwise it is a majority leaf exactly when every cell of every row equals `obs[0][0]`, and a node otherwise. |
| ID3.EqualRowsAreNotALeaf | src/ID3.java:270-273 | Two identical rows [1,0] with labels 1 and 0 are not a leaf, because the test compares cells with `obs[0][0]` rather than rows with row 0. |
| ID3.Learn | src/ID3.java:117-129 | A learned tree is no deeper than the number of attribute names, and names its nodes only after those attributes. |
| ID3.LearnTree | src/ID3.java:117-129 | The recursive method (build the node, compute the gains, pick the split, split, learn both children) returns exactly `Learn(d, gain)`. |
| ID3.LearnFromLists | src/ID3.java:108-115 | The list overload repeats the constructor's checks first. It is the same as constructing the data set and learning from it. |
| ID3.LearnLeafIffDetermineIsLeaf | src/ID3.java:117-121 | The learner returns a leaf with determineIsLeaf's value when determineIsLeaf says leaf. Otherwise it returns a node or fails. |
| ID3.LearnedLeafIsJustified | src/ID3.java:117-121 | A learned leaf rests on one of two grounds. Either all labels equal its value, or its value is the majority label and the set has no columns or a single cell value. |
| ID3.LearnNodeShape | src/ID3.java:123-128 | A learned node is named after the column the scan chose. Its left child is learned from the value-0 branch and its right child from the value-1 branch. |
| ID3.LeafValueIsLabel | src/ID3.java:256-284 | The value determineIsLeaf predicts occurs among the labels. |
| ID3.BranchLabelsAreLabels | src/ID3.java:222-230 | A branch's labels are all labels of the parent. |
| ID3.LearnedLeavesAreLabels | src/ID3.java:117-129 | Every leaf of a learned tree predicts a label that occurs in the data. |
| ID3.ConstantColumnFails | src/ID3.java:117-129 | If the chosen column holds one value in every row of a rectangular table, learning fails with IndexOutOfBounds, because a branch is empty. |
| ID3.RectangularFailsOnlyOnEmptyBranch | src/ID3.java:117-129 | On a rectangular table the only way learning fails is IndexOutOfBounds from an empty branch. |
| ID3.DuplicateRowsTallies | src/ID3.java:164-176 | The counters of the table [[1,0],[1,0]] with labels [1,0] are (1,1,0,0) for column 0 and (0,0,1,1) for column 1. |
| ID3.IdenticalRowsFail | src/ID3.java:117-129 | For every gain function: on any table of identical rows that the leaf test does not make a leaf, learning fails with IndexOutOfBounds, because the chosen column is constant and one branch is empty. |
| ID3.DuplicateRowsWithConflictingLabelsFail | src/ID3.java:117-129 | For every gain function, learning on the two identical rows [1,0] with labels [1,0] fails with IndexOutOfBounds. |
| ID3.LearnGuarded | src/ID3.java:117-129 | The learner with an empty branch replaced by a majority leaf. Its trees are no deeper than the number of names. |
| ID3.LearnGuardedSucceedsOnRectangular | src/ID3.java:117-129 | The guarded learner never fails on a rectangular table. |
| ID3.LearnGuardedAgreesWithLearn | src/ID3.java:117-129 | Wherever `learnTree` succeeds, the guarded learner builds the same tree. |
| ID3.IdenticalRowsGiveMajorityLeaf | src/ID3.java:117-129 | For every gain function: on any table of identical rows with conflicting labels, the guarded learner returns a single leaf with the majority label. |
| ID3.DuplicateRowsGiveMajorityLeaf | src/ID3.java:117-129 | For every gain function, the guarded learner predicts the majority label on the duplicate-rows table, which is true on a tie. |
| ID3.GetTreeDiagram | src/ID3.java:339-341 | The diagram of the root, drawn with empty padding: non-empty and ending in a line break; a leaf is the single line " 1" or " 0", and a decision node starts with its name and " = 0 :", with no leading line break. |
| ID3.Diagram | src/ID3.java:343-360 | Every diagram, of a leaf or of a node, is non-empty and ends in a line break. |
| ID3.DiagramExample | src/ID3.java:339-360 | One decision on "a" with leaves 1 and 0 renders as "a = 0 : 1\na = 1 : 0\n". |
| ID3.DiagramLeafNewlines | src/ID3.java:345-348 | A leaf's diagram is exactly one line. |
| ID3.DiagramNodeNewlines | src/ID3.java:350-358 | A node adds a line break before itself only when the padding is non-empty. Every other line break comes from its children. |
| ID3.DiagramLineCount | src/ID3.java:343-360 | When neither the names nor the padding contain a line break, the diagram has one line per leaf and one per decision node below the root. |

## Left out

- File reading is left out: `DataSet.fromFile`, `readAttributesNames`, `getSetFromFile` and `getSetFromFileAsString`. It is `BufferedReader` I/O with Java regex splitting. `SplitSpaces` handles only the single spaces that `toString` writes.
- The entropy arithmetic (`calcEntropy`, `log2`, `getWeightedAverage`) and the subtraction in `calcInfoGain` are floating-point logarithms. They are the `gain` parameter over a column's counters. `CalcInfoGain` maps that parameter over the columns. A `real` stands for each `double`, so NaN and rounding are not modelled.
- CountBranches: the counters are `nat`, so Java's 32-bit `int` wrap-around is not modelled. It would need more than 2^31 rows.
- CountBranches and CalcInfoGain take a valid `DataSet`, because the learner passes a data set's own lists. The Java methods also accept bare lists. On bare lists, no rows or a short label list would throw where the model has a precondition.
- RemoveElement requires `index < |s|`. Java's `List.remove` would throw otherwise. The one caller, `split`, meets this, and `Split` returns IndexOutOfBounds before calling it with a larger index.
- Java exception types and messages are reduced to the three `Error` variants. A failure in a child is propagated as the child's error, which matches an exception unwinding the recursion.
- The `TreeException` branches of `createDiagram` are not modelled. They cannot happen once a leaf always carries a value and a node always carries a name and two children.
- The getters and setters of `Tree` and the `Tuple` class are not modelled: datatype fields and Dafny tuples stand for them.
- Prediction and accuracy are not modelled, because their source is not part of this model. `Main.java` and `Program.java` are also left out; they only handle command-line arguments and printing.
- Unmodifiable list wrappers are not modelled. Dafny sequences are values and cannot alias or be modified.

## Findings

| source | as written | input that shows it | evidently intended | confidence | as-written member | corrected member |
|---|---|---|---|---|---|---|
| src/ID3.java:117-129 | The leaf test compares every cell with `obs[0][0]`. A set with equal rows but mixed cells is therefore split, column 0 is chosen when no gain is positive, one branch is empty, and `new DataSet` on it throws at `observations.get(0)`. | Names ["a","b"], rows [[1,0],[1,0]], labels [1,0]. Both gains are exactly 0, so the split index is 0, and the value-0 branch has no rows. Under any gain function the failure follows, as it does for every table of identical rows with conflicting labels and mixed cells. | Identical rows with conflicting labels are unsplittable and give a leaf with the majority label, so training error is non-zero rather than an exception. | not executed; high | ID3.IdenticalRowsFail, ID3.DuplicateRowsWithConflictingLabelsFail | ID3.LearnGuarded (with ID3.IdenticalRowsGiveMajorityLeaf, ID3.LearnGuardedSucceedsOnRectangular, ID3.LearnGuardedAgreesWithLearn, ID3.DuplicateRowsGiveMajorityLeaf) |

`Learn` and `LearnTree` model the code as written. `LearnGuarded` is the
corrected learner: a split that would leave a branch empty makes a majority
leaf instead. It never fails on a rectangular table, it builds the same tree
wherever the original succeeds, and it gives the majority leaf on every table of
identical rows with conflicting labels, the one above included.
