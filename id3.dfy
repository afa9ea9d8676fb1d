/**
 * The ID3 learner: splitting a data set on one attribute, the counters
 * behind the information gain, the choice of the split attribute, the
 * leaf test, the recursive construction of the tree and its diagram.
 *
 * The information gain itself is floating-point entropy arithmetic; here it
 * is a parameter `gain` that maps the four counters of an attribute column
 * to the column's gain (the set size and the label counts, which the
 * entropies also use, follow from those four counters).
 */
module ID3 {
  import opened DataSets

  datatype Option<T> = None | Some(value: T)

  /** A learned tree: a leaf that predicts a label, or a decision on the
      named attribute whose `left` child is for 0 and `right` child for 1. */
  datatype Tree = Leaf(predictedValue: bool) | Node(attributeName: string, left: Tree, right: Tree)

  // ----- convertSetToString: a second copy of DataSet.toString -----

  method ConvertSetToString(data: DataSet) returns (s: string)
    requires Valid(data)
    ensures s == Render(data)
  {
    var names := data.attributeNames;
    s := "";
    for i := 0 to |names|
      invariant s == PartialHeader(names, i)
    {
      HeaderStep(names, i, if i != |names| - 1 then " " else "");
      s := s + names[i];
      if i != |names| - 1 {
        s := s + " ";
      }
    }
    TakeAll(names);
    assert s == Join(names);
    s := s + "\n";
    ghost var header := s;
    var labelIndex := 0;
    for j := 0 to |data.observations|
      invariant labelIndex == j
      invariant s == header + RowLines(data.observations[..j], data.labels)
    {
      var elements := data.observations[j];
      ghost var before := s;
      for i := 0 to |elements|
        invariant s == before + PartialRow(elements, data.labels[j], i)
      {
        var cell := if elements[i] then "1 " else "0 ";
        PartialRowStep(before, elements, data.labels[j], i, cell, if i == |elements| - 1 then Digit(data.labels[j]) else "");
        s := s + cell;
        if i == |elements| - 1 {
          s := s + (if data.labels[labelIndex] then "1" else "0");
        }
      }
      PartialRowDone(before, elements, data.labels[j]);
      s := s + "\n";
      RowLinesStep(header, data.observations, data.labels, j);
      labelIndex := labelIndex + 1;
    }
    TakeAll(data.observations);
  }

  /** The two serialisers produce the same text. */
  method SerialisersAgree(data: DataSet) returns (same: bool)
    requires Valid(data)
    ensures same
  {
    var a := ToString(data);
    var b := ConvertSetToString(data);
    same := a == b;
  }

  // ----- removeElement -----

  /** A copy of `s` without position `index`; `s` itself is untouched. */
  function RemoveElement<T>(index: nat, s: seq<T>): (r: seq<T>)
    requires index < |s|
    ensures |r| == |s| - 1
    ensures forall k :: 0 <= k < index ==> r[k] == s[k]
    ensures forall k :: index <= k < |r| ==> r[k] == s[k + 1]
  {
    s[..index] + s[index + 1..]
  }

  /** Putting the removed value back at its position restores the row. */
  lemma ReinsertRemoved<T>(index: nat, s: seq<T>)
    requires index < |s|
    ensures RemoveElement(index, s)[..index] + [s[index]] + RemoveElement(index, s)[index..] == s
  {
    var r := RemoveElement(index, s);
    var t := r[..index] + [s[index]] + r[index..];
    assert |t| == |s|;
    forall k | 0 <= k < |s| ensures t[k] == s[k] {
      if k > index {
        assert t[k] == r[k - 1];
      }
    }
  }

  lemma RemoveElementSubset<T>(index: nat, s: seq<T>)
    requires index < |s|
    ensures forall x :: x in RemoveElement(index, s) ==> x in s
  {
    var r := RemoveElement(index, s);
    forall x | x in r ensures x in s {
      var k :| 0 <= k < |r| && r[k] == x;
      if k < index {
        assert s[k] == x;
      } else {
        assert s[k + 1] == x;
      }
    }
  }

  // ----- split -----

  /** Every row has a value at column `index`. */
  predicate HasColumn(observations: seq<seq<bool>>, index: nat)
  {
    forall j :: 0 <= j < |observations| ==> index < |observations[j]|
  }

  /** The rows whose value at `index` is `side`, in order, each without that column. */
  function BranchRows(observations: seq<seq<bool>>, index: nat, side: bool): seq<seq<bool>>
    requires HasColumn(observations, index)
  {
    if |observations| == 0 then []
    else
      var n := |observations| - 1;
      BranchRows(observations[..n], index, side)
      + (if observations[n][index] == side then [RemoveElement(index, observations[n])] else [])
  }

  /** The labels of those rows, in the same order. */
  function BranchLabels(observations: seq<seq<bool>>, labels: seq<bool>, index: nat, side: bool): seq<bool>
    requires HasColumn(observations, index) && |observations| <= |labels|
  {
    if |observations| == 0 then []
    else
      var n := |observations| - 1;
      BranchLabels(observations[..n], labels, index, side)
      + (if observations[n][index] == side then [labels[n]] else [])
  }

  /** The positions of those rows in the parent. */
  function Positions(observations: seq<seq<bool>>, index: nat, side: bool): seq<nat>
    requires HasColumn(observations, index)
  {
    if |observations| == 0 then []
    else
      var n := |observations| - 1;
      Positions(observations[..n], index, side) + (if observations[n][index] == side then [n] else [])
  }

  /** The positions of one branch are increasing, each holds a row of that
      side, and every row of that side is among them. */
  lemma {:induction false} PositionsShape(observations: seq<seq<bool>>, index: nat, side: bool)
    requires HasColumn(observations, index)
    ensures var p := Positions(observations, index, side);
      && (forall k :: 0 <= k < |p| ==> p[k] < |observations| && observations[p[k]][index] == side)
      && (forall k1, k2 :: 0 <= k1 < k2 < |p| ==> p[k1] < p[k2])
      && (forall j :: 0 <= j < |observations| && observations[j][index] == side ==> j in p)
  {
    if |observations| > 0 {
      var n := |observations| - 1;
      var prefix := observations[..n];
      PositionsShape(prefix, index, side);
      var q := Positions(prefix, index, side);
      var p := Positions(observations, index, side);
      assert p == q + (if observations[n][index] == side then [n] else []);
      forall k | 0 <= k < |p|
        ensures p[k] < |observations| && observations[p[k]][index] == side
      {
        if k < |q| {
          assert p[k] == q[k];
          assert prefix[q[k]] == observations[q[k]];
        }
      }
      forall j | 0 <= j < |observations| && observations[j][index] == side
        ensures j in p
      {
        if j < n {
          assert prefix[j] == observations[j];
          assert j in q;
        }
      }
    }
  }

  /** The k-th row of a branch is the parent row at position p[k] without the column. */
  lemma {:induction false} BranchRowsAt(observations: seq<seq<bool>>, index: nat, side: bool)
    requires HasColumn(observations, index)
    ensures var p := Positions(observations, index, side);
      && |BranchRows(observations, index, side)| == |p|
      && (forall k :: 0 <= k < |p| ==> p[k] < |observations| && BranchRows(observations, index, side)[k] == RemoveElement(index, observations[p[k]]))
  {
    PositionsShape(observations, index, side);
    if |observations| > 0 {
      var n := |observations| - 1;
      var prefix := observations[..n];
      BranchRowsAt(prefix, index, side);
      PositionsShape(prefix, index, side);
      var q := Positions(prefix, index, side);
      forall k | 0 <= k < |q|
        ensures prefix[q[k]] == observations[q[k]]
      {
      }
    }
  }

  /** The k-th label of a branch is the parent label at position p[k]. */
  lemma {:induction false} BranchLabelsAt(observations: seq<seq<bool>>, labels: seq<bool>, index: nat, side: bool)
    requires HasColumn(observations, index) && |observations| <= |labels|
    ensures var p := Positions(observations, index, side);
      && |BranchLabels(observations, labels, index, side)| == |p|
      && (forall k :: 0 <= k < |p| ==> p[k] < |observations| && BranchLabels(observations, labels, index, side)[k] == labels[p[k]])
  {
    PositionsShape(observations, index, side);
    if |observations| > 0 {
      var n := |observations| - 1;
      BranchLabelsAt(observations[..n], labels, index, side);
    }
  }

  /** One branch of a split is a stable selection: its k-th row is the parent
      row at an increasing position p[k] with that column removed, with that
      row's label, and every parent row of that side is selected. */
  lemma BranchIsStableSelection(observations: seq<seq<bool>>, labels: seq<bool>, index: nat, side: bool)
    requires HasColumn(observations, index) && |observations| <= |labels|
    ensures var p := Positions(observations, index, side);
      && |BranchRows(observations, index, side)| == |p|
      && |BranchLabels(observations, labels, index, side)| == |p|
      && (forall k :: 0 <= k < |p| ==> p[k] < |observations| && observations[p[k]][index] == side)
      && (forall k :: 0 <= k < |p| ==> BranchRows(observations, index, side)[k] == RemoveElement(index, observations[p[k]]))
      && (forall k :: 0 <= k < |p| ==> BranchLabels(observations, labels, index, side)[k] == labels[p[k]])
      && (forall k1, k2 :: 0 <= k1 < k2 < |p| ==> p[k1] < p[k2])
      && (forall j :: 0 <= j < |observations| && observations[j][index] == side ==> j in p)
  {
    PositionsShape(observations, index, side);
    BranchRowsAt(observations, index, side);
    BranchLabelsAt(observations, labels, index, side);
  }

  /** The two branches together hold every row once. */
  lemma {:induction false} BranchSizes(observations: seq<seq<bool>>, index: nat)
    requires HasColumn(observations, index)
    ensures |BranchRows(observations, index, false)| + |BranchRows(observations, index, true)| == |observations|
  {
    if |observations| > 0 {
      BranchSizes(observations[..|observations| - 1], index);
    }
  }

  /** split on data set values: both children get the names without entry
      `index`; the left child is built first. */
  function SplitSets(d: DataSet, index: nat): (r: Result<(DataSet, DataSet)>)
    requires Valid(d)
    ensures !HasColumn(d.observations, index) || |d.attributeNames| <= index ==> r == Err(IndexOutOfBounds)
    ensures r.Ok? ==> Valid(r.value.0) && Valid(r.value.1)
    ensures r.Ok? ==> |r.value.0.attributeNames| == |r.value.1.attributeNames| == |d.attributeNames| - 1
    ensures r.Ok? ==>
      && r.value.0.attributeNames == r.value.1.attributeNames == RemoveElement(index, d.attributeNames)
      && r.value.0.observations == BranchRows(d.observations, index, false)
      && r.value.0.labels == BranchLabels(d.observations, d.labels, index, false)
      && r.value.1.observations == BranchRows(d.observations, index, true)
      && r.value.1.labels == BranchLabels(d.observations, d.labels, index, true)
  {
    // a row without the column fails get(index); then the names fail remove(index)
    if !HasColumn(d.observations, index) || |d.attributeNames| <= index then Err(IndexOutOfBounds)
    else
      var names := RemoveElement(index, d.attributeNames);
      var left := NewDataSet(names, BranchRows(d.observations, index, false), BranchLabels(d.observations, d.labels, index, false));
      var right := NewDataSet(names, BranchRows(d.observations, index, true), BranchLabels(d.observations, d.labels, index, true));
      if left.Err? then Err(left.error)
      else if right.Err? then Err(right.error)
      else Ok((left.value, right.value))
  }

  lemma BranchStep(observations: seq<seq<bool>>, labels: seq<bool>, index: nat, i: nat)
    requires i < |observations| <= |labels| && HasColumn(observations[..i + 1], index)
    ensures HasColumn(observations[..i], index)
    ensures forall side: bool ::
      && BranchRows(observations[..i + 1], index, side)
         == BranchRows(observations[..i], index, side) + (if observations[i][index] == side then [RemoveElement(index, observations[i])] else [])
      && BranchLabels(observations[..i + 1], labels, index, side)
         == BranchLabels(observations[..i], labels, index, side) + (if observations[i][index] == side then [labels[i]] else [])
  {
    TakeSnoc(observations, i);
  }

  /** ID3.split: routes each row, in order, to the right list when its value
      at `index` is true and to the left list otherwise. */
  method Split(d: DataSet, index: nat) returns (r: Result<(DataSet, DataSet)>)
    requires Valid(d)
    ensures r == SplitSets(d, index)
  {
    var leftObservations: seq<seq<bool>> := [];
    var leftLabels: seq<bool> := [];
    var rightObservations: seq<seq<bool>> := [];
    var rightLabels: seq<bool> := [];
    for i := 0 to |d.observations|
      invariant HasColumn(d.observations[..i], index)
      invariant leftObservations == BranchRows(d.observations[..i], index, false)
      invariant leftLabels == BranchLabels(d.observations[..i], d.labels, index, false)
      invariant rightObservations == BranchRows(d.observations[..i], index, true)
      invariant rightLabels == BranchLabels(d.observations[..i], d.labels, index, true)
    {
      if |d.observations[i]| <= index {
        return Err(IndexOutOfBounds);
      }
      TakeSnoc(d.observations, i);
      BranchStep(d.observations, d.labels, index, i);
      if d.observations[i][index] {
        rightObservations := rightObservations + [RemoveElement(index, d.observations[i])];
        rightLabels := rightLabels + [d.labels[i]];
      } else {
        leftObservations := leftObservations + [RemoveElement(index, d.observations[i])];
        leftLabels := leftLabels + [d.labels[i]];
      }
    }
    TakeAll(d.observations);
    if |d.attributeNames| <= index {
      return Err(IndexOutOfBounds);
    }
    var attributeNames := RemoveElement(index, d.attributeNames);
    var left := NewDataSet(attributeNames, leftObservations, leftLabels);
    if left.Err? {
      return Err(left.error);
    }
    var right := NewDataSet(attributeNames, rightObservations, rightLabels);
    if right.Err? {
      return Err(right.error);
    }
    r := Ok((left.value, right.value));
  }

  /** On a rectangular table a split fails exactly when one side gets no
      rows, and then only because that side's constructor reads a row 0 that
      does not exist; otherwise both children are rectangular, one column
      narrower, and share the parent's rows between them. */
  lemma SplitOutcome(d: DataSet, index: nat)
    requires Valid(d) && Rectangular(d) && index < |d.attributeNames|
    ensures HasColumn(d.observations, index)
    ensures SplitSets(d, index).Ok? <==>
      (exists j :: 0 <= j < |d.observations| && !d.observations[j][index]) &&
      (exists j :: 0 <= j < |d.observations| && d.observations[j][index])
    ensures SplitSets(d, index).Err? ==> SplitSets(d, index).error == IndexOutOfBounds
    ensures SplitSets(d, index).Ok? ==>
      var (l, r) := SplitSets(d, index).value;
      && l.attributeNames == r.attributeNames == RemoveElement(index, d.attributeNames)
      && Rectangular(l) && Rectangular(r)
      && |l.observations| + |r.observations| == |d.observations|
  {
    var obs := d.observations;
    BranchSizes(obs, index);
    BranchOfRectangular(obs, d.labels, index, false, |d.attributeNames|);
    BranchOfRectangular(obs, d.labels, index, true, |d.attributeNames|);
  }

  /** One branch of a table whose rows all have `width` cells: it is empty
      exactly when no row has `side` at the column, its rows have one cell
      fewer, and it has one label per row. */
  lemma BranchOfRectangular(observations: seq<seq<bool>>, labels: seq<bool>, index: nat, side: bool, width: nat)
    requires index < width && |observations| <= |labels|
    requires forall j :: 0 <= j < |observations| ==> |observations[j]| == width
    ensures HasColumn(observations, index)
    ensures |BranchRows(observations, index, side)| > 0 <==> exists j :: 0 <= j < |observations| && observations[j][index] == side
    ensures forall k :: 0 <= k < |BranchRows(observations, index, side)| ==> |BranchRows(observations, index, side)[k]| == width - 1
    ensures |BranchLabels(observations, labels, index, side)| == |BranchRows(observations, index, side)|
  {
    BranchIsStableSelection(observations, labels, index, side);
    var p := Positions(observations, index, side);
    if exists j :: 0 <= j < |observations| && observations[j][index] == side {
      var j :| 0 <= j < |observations| && observations[j][index] == side;
      assert j in p;
    }
  }

  // ----- The counters of calcConditionalEntropies -----

  /** The four counters of one attribute column: rows by label (class) and by
      the attribute's value (branch). */
  datatype Tally = Tally(classTrueOnTrueBranch: nat, classFalseOnTrueBranch: nat,
                         classTrueOnFalseBranch: nat, classFalseOnFalseBranch: nat)

  /** The number of rows whose value at column i is `value` and whose label is `classLabel`. */
  function CountRows(observations: seq<seq<bool>>, labels: seq<bool>, i: nat, value: bool, classLabel: bool): nat
    requires HasColumn(observations, i) && |observations| <= |labels|
  {
    if |observations| == 0 then 0
    else
      var n := |observations| - 1;
      CountRows(observations[..n], labels, i, value, classLabel)
      + (if observations[n][i] == value && labels[n] == classLabel then 1 else 0)
  }

  function TallyOf(observations: seq<seq<bool>>, labels: seq<bool>, i: nat): Tally
    requires HasColumn(observations, i) && |observations| <= |labels|
  {
    Tally(CountRows(observations, labels, i, true, true), CountRows(observations, labels, i, true, false),
          CountRows(observations, labels, i, false, true), CountRows(observations, labels, i, false, false))
  }

  /** The number of occurrences of `b`. */
  function Count(bs: seq<bool>, b: bool): nat
  {
    if |bs| == 0 then 0 else Count(bs[..|bs| - 1], b) + (if bs[|bs| - 1] == b then 1 else 0)
  }

  lemma {:induction false} CountPartition(bs: seq<bool>)
    ensures Count(bs, true) + Count(bs, false) == |bs|
  {
    if |bs| > 0 {
      CountPartition(bs[..|bs| - 1]);
    }
  }

  lemma CountSnoc(bs: seq<bool>, x: bool, b: bool)
    ensures Count(bs + [x], b) == Count(bs, b) + (if x == b then 1 else 0)
  {
    assert (bs + [x])[..|bs|] == bs;
  }

  /** A counter of column i counts the labels `classLabel` in the branch `value`. */
  lemma {:induction false} CountRowsIsBranchCount(observations: seq<seq<bool>>, labels: seq<bool>, i: nat, value: bool, classLabel: bool)
    requires HasColumn(observations, i) && |observations| <= |labels|
    ensures CountRows(observations, labels, i, value, classLabel) == Count(BranchLabels(observations, labels, i, value), classLabel)
  {
    if |observations| > 0 {
      var n := |observations| - 1;
      CountRowsIsBranchCount(observations[..n], labels, i, value, classLabel);
      var prev := BranchLabels(observations[..n], labels, i, value);
      if observations[n][i] == value {
        CountSnoc(prev, labels[n], classLabel);
      } else {
        assert prev + [] == prev;
      }
    }
  }

  /** The counters of column i are the label counts of the two branches a
      split on column i produces. */
  lemma TallyIsBranchCounts(observations: seq<seq<bool>>, labels: seq<bool>, i: nat)
    requires HasColumn(observations, i) && |observations| <= |labels|
    ensures var t := TallyOf(observations, labels, i);
      && t.classTrueOnTrueBranch == Count(BranchLabels(observations, labels, i, true), true)
      && t.classFalseOnTrueBranch == Count(BranchLabels(observations, labels, i, true), false)
      && t.classTrueOnFalseBranch == Count(BranchLabels(observations, labels, i, false), true)
      && t.classFalseOnFalseBranch == Count(BranchLabels(observations, labels, i, false), false)
  {
    CountRowsIsBranchCount(observations, labels, i, true, true);
    CountRowsIsBranchCount(observations, labels, i, true, false);
    CountRowsIsBranchCount(observations, labels, i, false, true);
    CountRowsIsBranchCount(observations, labels, i, false, false);
  }

  lemma TallyPartition(observations: seq<seq<bool>>, labels: seq<bool>, i: nat)
    requires HasColumn(observations, i) && |observations| <= |labels|
    ensures var t := TallyOf(observations, labels, i);
      && t.classTrueOnTrueBranch + t.classFalseOnTrueBranch + t.classTrueOnFalseBranch + t.classFalseOnFalseBranch == |observations|
      && t.classTrueOnTrueBranch + t.classFalseOnTrueBranch == |BranchRows(observations, i, true)|
      && t.classTrueOnFalseBranch + t.classFalseOnFalseBranch == |BranchRows(observations, i, false)|
  {
    TallyIsBranchCounts(observations, labels, i);
    BranchIsStableSelection(observations, labels, i, true);
    BranchIsStableSelection(observations, labels, i, false);
    CountPartition(BranchLabels(observations, labels, i, true));
    CountPartition(BranchLabels(observations, labels, i, false));
    BranchSizes(observations, i);
  }

  /** Every row at least as wide as row 0: otherwise the counters read past
      the end of a short row. */
  predicate WideEnough(d: DataSet)
    requires |d.observations| > 0
  {
    forall j :: 0 <= j < |d.observations| ==> |d.observations[0]| <= |d.observations[j]|
  }

  /** The counters after one more row whose value at the column is `value`
      and whose label is `classLabel`: exactly one of them goes up. */
  function Bump(t: Tally, value: bool, classLabel: bool): Tally
  {
    if value && classLabel then t.(classTrueOnTrueBranch := t.classTrueOnTrueBranch + 1)
    else if value then t.(classFalseOnTrueBranch := t.classFalseOnTrueBranch + 1)
    else if classLabel then t.(classTrueOnFalseBranch := t.classTrueOnFalseBranch + 1)
    else t.(classFalseOnFalseBranch := t.classFalseOnFalseBranch + 1)
  }

  lemma TallyStep(observations: seq<seq<bool>>, labels: seq<bool>, i: nat, j: nat)
    requires j < |observations| <= |labels| && HasColumn(observations[..j + 1], i)
    ensures HasColumn(observations[..j], i)
    ensures TallyOf(observations[..j + 1], labels, i) == Bump(TallyOf(observations[..j], labels, i), observations[j][i], labels[j])
  {
    TakeSnoc(observations, j);
  }

  /** The inner loop of the counters: each cell of one row, against the
      row's label, bumps one of the four counters of its column. */
  method CountRow(attributeValues: seq<bool>, classLabel: bool,
                  classTrueCountOnTrueBranch: array<nat>, classFalseCountOnTrueBranch: array<nat>,
                  classTrueCountOnFalseBranch: array<nat>, classFalseCountOnFalseBranch: array<nat>)
    requires classTrueCountOnTrueBranch.Length == classFalseCountOnTrueBranch.Length
          == classTrueCountOnFalseBranch.Length == classFalseCountOnFalseBranch.Length <= |attributeValues|
    requires classTrueCountOnTrueBranch != classFalseCountOnTrueBranch && classTrueCountOnTrueBranch != classTrueCountOnFalseBranch
          && classTrueCountOnTrueBranch != classFalseCountOnFalseBranch && classFalseCountOnTrueBranch != classTrueCountOnFalseBranch
          && classFalseCountOnTrueBranch != classFalseCountOnFalseBranch && classTrueCountOnFalseBranch != classFalseCountOnFalseBranch
    modifies classTrueCountOnTrueBranch, classFalseCountOnTrueBranch, classTrueCountOnFalseBranch, classFalseCountOnFalseBranch
    ensures forall i :: 0 <= i < classTrueCountOnTrueBranch.Length ==>
      Tally(classTrueCountOnTrueBranch[i], classFalseCountOnTrueBranch[i], classTrueCountOnFalseBranch[i], classFalseCountOnFalseBranch[i])
      == Bump(old(Tally(classTrueCountOnTrueBranch[i], classFalseCountOnTrueBranch[i], classTrueCountOnFalseBranch[i], classFalseCountOnFalseBranch[i])),
              attributeValues[i], classLabel)
  {
    for i := 0 to classTrueCountOnTrueBranch.Length
      invariant forall i' :: 0 <= i' < i ==>
        Tally(classTrueCountOnTrueBranch[i'], classFalseCountOnTrueBranch[i'], classTrueCountOnFalseBranch[i'], classFalseCountOnFalseBranch[i'])
        == Bump(old(Tally(classTrueCountOnTrueBranch[i'], classFalseCountOnTrueBranch[i'], classTrueCountOnFalseBranch[i'], classFalseCountOnFalseBranch[i'])),
                attributeValues[i'], classLabel)
      invariant forall i' :: i <= i' < classTrueCountOnTrueBranch.Length ==>
        Tally(classTrueCountOnTrueBranch[i'], classFalseCountOnTrueBranch[i'], classTrueCountOnFalseBranch[i'], classFalseCountOnFalseBranch[i'])
        == old(Tally(classTrueCountOnTrueBranch[i'], classFalseCountOnTrueBranch[i'], classTrueCountOnFalseBranch[i'], classFalseCountOnFalseBranch[i']))
    {
      if attributeValues[i] && classLabel {
        classTrueCountOnTrueBranch[i] := classTrueCountOnTrueBranch[i] + 1;
      } else if attributeValues[i] && !classLabel {
        classFalseCountOnTrueBranch[i] := classFalseCountOnTrueBranch[i] + 1;
      } else if !attributeValues[i] && classLabel {
        classTrueCountOnFalseBranch[i] := classTrueCountOnFalseBranch[i] + 1;
      } else if !attributeValues[i] && !classLabel {
        classFalseCountOnFalseBranch[i] := classFalseCountOnFalseBranch[i] + 1;
      }
    }
  }

  /** The nested loops of calcConditionalEntropies that fill the four counter
      arrays, and the loop that reads them out per column. */
  method CountBranches(d: DataSet) returns (r: Result<seq<Tally>>)
    requires Valid(d)
    ensures r.Err? <==> !WideEnough(d)
    ensures r.Err? ==> r.error == IndexOutOfBounds
    ensures r.Ok? ==> |r.value| == |d.observations[0]|
    ensures r.Ok? ==> forall i :: 0 <= i < |r.value| ==> HasColumn(d.observations, i) && r.value[i] == TallyOf(d.observations, d.labels, i)
  {
    var observations := d.observations;
    var labels := d.labels;
    var attributeLen := |observations[0]|;
    var classTrueCountOnTrueBranch := new nat[attributeLen](_ => 0);
    var classFalseCountOnTrueBranch := new nat[attributeLen](_ => 0);
    var classTrueCountOnFalseBranch := new nat[attributeLen](_ => 0);
    var classFalseCountOnFalseBranch := new nat[attributeLen](_ => 0);
    var labelIndex := 0;
    for j := 0 to |observations|
      invariant labelIndex == j
      invariant forall j' :: 0 <= j' < j ==> attributeLen <= |observations[j']|
      invariant forall i :: 0 <= i < attributeLen ==>
        && HasColumn(observations[..j], i)
        && Tally(classTrueCountOnTrueBranch[i], classFalseCountOnTrueBranch[i], classTrueCountOnFalseBranch[i], classFalseCountOnFalseBranch[i])
           == TallyOf(observations[..j], labels, i)
    {
      var attributeValues := observations[j];
      if |attributeValues| < attributeLen {
        // attributeValues.get(i) throws once i reaches the row's end
        return Err(IndexOutOfBounds);
      }
      ghost var prev := observations[..j];
      ghost var next := observations[..j + 1];
      assert forall i :: 0 <= i < attributeLen ==> HasColumn(next, i);
      CountRow(attributeValues, labels[labelIndex], classTrueCountOnTrueBranch, classFalseCountOnTrueBranch,
               classTrueCountOnFalseBranch, classFalseCountOnFalseBranch);
      forall i | 0 <= i < attributeLen
        ensures Tally(classTrueCountOnTrueBranch[i], classFalseCountOnTrueBranch[i], classTrueCountOnFalseBranch[i], classFalseCountOnFalseBranch[i])
                == TallyOf(next, labels, i)
      {
        TallyStep(observations, labels, i, j);
      }
      labelIndex := labelIndex + 1;
    }
    TakeAll(observations);
    var tallies: seq<Tally> := [];
    for i := 0 to attributeLen
      invariant |tallies| == i
      invariant forall k :: 0 <= k < i ==> HasColumn(observations, k) && tallies[k] == TallyOf(observations, labels, k)
    {
      tallies := tallies + [Tally(classTrueCountOnTrueBranch[i], classFalseCountOnTrueBranch[i],
                                  classTrueCountOnFalseBranch[i], classFalseCountOnFalseBranch[i])];
    }
    r := Ok(tallies);
  }

  /** The information gain of every column, from its counters. */
  function InfoGains(d: DataSet, gain: Tally -> real): seq<real>
    requires Valid(d) && WideEnough(d)
  {
    seq(|d.observations[0]|, i requires 0 <= i < |d.observations[0]| && HasColumn(d.observations, i) =>
      gain(TallyOf(d.observations, d.labels, i)))
  }

  /** calcInfoGain: the gain of each column, or the exception the counters raise. */
  method CalcInfoGain(d: DataSet, gain: Tally -> real) returns (r: Result<seq<real>>)
    requires Valid(d)
    ensures !WideEnough(d) ==> r == Err(IndexOutOfBounds)
    ensures WideEnough(d) ==> r == Ok(InfoGains(d, gain))
  {
    var counts := CountBranches(d);
    if counts.Err? {
      return Err(counts.error);
    }
    var tallies := counts.value;
    var infoGains: seq<real> := [];
    for i := 0 to |tallies|
      invariant |infoGains| == i
      invariant forall k :: 0 <= k < i ==> infoGains[k] == gain(tallies[k])
    {
      infoGains := infoGains + [gain(tallies[i])];
    }
    assert |infoGains| == |InfoGains(d, gain)|;
    assert forall k :: 0 <= k < |infoGains| ==> infoGains[k] == InfoGains(d, gain)[k];
    assert infoGains == InfoGains(d, gain);
    r := Ok(infoGains);
  }

  // ----- determineIndexOfSplit -----

  /** The best gain seen by the scan, starting from a floor of 0. */
  function BestGain(gains: seq<real>): real
  {
    if |gains| == 0 then 0.0
    else
      var previous := BestGain(gains[..|gains| - 1]);
      if gains[|gains| - 1] > previous then gains[|gains| - 1] else previous
  }

  /** The index the scan settles on: it moves only on a strictly greater gain. */
  function SplitIndex(gains: seq<real>): (k: nat)
    ensures |gains| > 0 ==> k < |gains|
    ensures |gains| == 0 ==> k == 0
  {
    if |gains| == 0 then 0
    else if gains[|gains| - 1] > BestGain(gains[..|gains| - 1]) then |gains| - 1
    else SplitIndex(gains[..|gains| - 1])
  }

  /** The scan finds the earliest index of the maximum gain when that maximum
      is positive, and index 0 when no gain is positive. */
  lemma {:induction false} SplitIndexIsEarliestMaximum(gains: seq<real>)
    ensures BestGain(gains) >= 0.0
    ensures forall j :: 0 <= j < |gains| ==> gains[j] <= BestGain(gains)
    ensures BestGain(gains) > 0.0 ==> gains[SplitIndex(gains)] == BestGain(gains)
    ensures forall j :: 0 <= j < SplitIndex(gains) ==> gains[j] < BestGain(gains)
    ensures BestGain(gains) == 0.0 ==> SplitIndex(gains) == 0
  {
    if |gains| > 0 {
      var n := |gains| - 1;
      var prefix := gains[..n];
      SplitIndexIsEarliestMaximum(prefix);
      assert forall j :: 0 <= j < n ==> gains[j] == prefix[j];
    }
  }

  /** The gains of the spam example: the first column is chosen. */
  lemma SpamExampleSplitsOnFirstColumn()
    ensures SplitIndex([0.28, 0.24, 0.035]) == 0
  {
    assert [0.28, 0.24, 0.035][..2] == [0.28, 0.24];
    assert [0.28, 0.24][..1] == [0.28];
  }

  /** ID3.determineIndexOfSplit over the gains of the columns. */
  method DetermineIndexOfSplit(infoGains: seq<real>) returns (splitIndex: nat)
    ensures |infoGains| > 0 ==> splitIndex < |infoGains|
    ensures (forall j :: 0 <= j < |infoGains| ==> infoGains[j] <= 0.0) ==> splitIndex == 0
    ensures (exists j :: 0 <= j < |infoGains| && infoGains[j] > 0.0) ==>
      && infoGains[splitIndex] > 0.0
      && (forall j :: 0 <= j < |infoGains| ==> infoGains[j] <= infoGains[splitIndex])
      && (forall j :: 0 <= j < splitIndex ==> infoGains[j] < infoGains[splitIndex])
    ensures splitIndex == SplitIndex(infoGains)
  {
    splitIndex := 0;
    var previous := 0.0;
    for i := 0 to |infoGains|
      invariant splitIndex == SplitIndex(infoGains[..i])
      invariant previous == BestGain(infoGains[..i])
    {
      TakeSnoc(infoGains, i);
      if infoGains[i] > previous {
        splitIndex := i;
        previous := infoGains[i];
      }
    }
    TakeAll(infoGains);
    SplitIndexIsEarliestMaximum(infoGains);
  }

  // ----- Tree.determineIsLeaf, isVaried, getMajorityLabelValue -----

  /** True when some value differs from `initial`. */
  function IsVaried(attributeValues: seq<bool>, initial: bool): (r: bool)
    ensures r <==> exists k :: 0 <= k < |attributeValues| && attributeValues[k] != initial
  {
    if |attributeValues| == 0 then false
    else if attributeValues[0] != initial then true
    else
      var rest := IsVaried(attributeValues[1..], initial);
      assert forall k :: 1 <= k < |attributeValues| ==> attributeValues[k] == attributeValues[1..][k - 1];
      rest
  }

  predicate AllLabelsAre(labels: seq<bool>, v: bool)
  {
    forall j :: 0 <= j < |labels| ==> labels[j] == v
  }

  /** Every cell of every row equals v. */
  predicate AllCellsAre(observations: seq<seq<bool>>, v: bool)
  {
    forall j, k :: 0 <= j < |observations| && 0 <= k < |observations[j]| ==> observations[j][k] == v
  }

  /** The label a leaf predicts when the labels are mixed; ties go to true. */
  function MajorityLabel(labels: seq<bool>): bool
  {
    Count(labels, true) >= Count(labels, false)
  }

  lemma MajorityTiesGoToTrue(labels: seq<bool>)
    ensures MajorityLabel(labels) <==> 2 * Count(labels, true) >= |labels|
  {
    CountPartition(labels);
  }

  /** Tree.getMajorityLabelValue: counts true and false labels. */
  method GetMajorityLabelValue(labels: seq<bool>) returns (r: bool)
    ensures r <==> Count(labels, true) >= Count(labels, false)
  {
    var trueCount, falseCount := 0, 0;
    for i := 0 to |labels|
      invariant trueCount == Count(labels[..i], true)
      invariant falseCount == Count(labels[..i], false)
    {
      TakeSnoc(labels, i);
      if labels[i] {
        trueCount := trueCount + 1;
      } else {
        falseCount := falseCount + 1;
      }
    }
    TakeAll(labels);
    r := trueCount >= falseCount;
  }

  /** Tree.determineIsLeaf: Some(v) for a leaf predicting v, None for a
      decision node.  Checked in order: pure labels; no rows or no columns;
      every cell equal to the first cell of the first row (not: every row
      equal to the first row). */
  function DetermineIsLeaf(d: DataSet): (r: Option<bool>)
    requires Valid(d)
    ensures AllLabelsAre(d.labels, d.labels[0]) ==> r == Some(d.labels[0])
    ensures !AllLabelsAre(d.labels, d.labels[0]) && |d.observations[0]| == 0 ==> r == Some(MajorityLabel(d.labels))
    ensures !AllLabelsAre(d.labels, d.labels[0]) && |d.observations[0]| > 0 ==>
      r == (if AllCellsAre(d.observations, d.observations[0][0]) then Some(MajorityLabel(d.labels)) else None)
  {
    var obs := d.observations;
    var labels := d.labels;
    var initialValue := labels[0];
    var isPure := !(exists j :: 0 <= j < |labels| && labels[j] != initialValue);
    if isPure then Some(initialValue)
    else if |obs| == 0 || |obs[0]| == 0 then Some(MajorityLabel(labels))
    else
      var initialObsValue := obs[0][0];
      var allObservationsAreEqual := !(exists j :: 0 <= j < |obs| && IsVaried(obs[j], initialObsValue));
      if allObservationsAreEqual then Some(MajorityLabel(labels)) else None
  }

  /** Two equal rows with different labels are not a leaf when their cells differ. */
  lemma EqualRowsAreNotALeaf()
    ensures DetermineIsLeaf(DataSet(["a", "b"], [[true, false], [true, false]], [true, false])) == None
  {
    var d := DataSet(["a", "b"], [[true, false], [true, false]], [true, false]);
    assert d.labels[1] != d.labels[0];
    assert d.observations[0][1] != d.observations[0][0];
  }

  // ----- learnTree -----

  function Depth(t: Tree): nat
  {
    match t
    case Leaf(_) => 0
    case Node(_, l, r) => 1 + (if Depth(l) >= Depth(r) then Depth(l) else Depth(r))
  }

  function NodeNames(t: Tree): set<string>
  {
    match t
    case Leaf(_) => {}
    case Node(name, l, r) => {name} + NodeNames(l) + NodeNames(r)
  }

  function LeafValues(t: Tree): set<bool>
  {
    match t
    case Leaf(v) => {v}
    case Node(_, l, r) => LeafValues(l) + LeafValues(r)
  }

  /** learnTree(DataSet) as a function: a leaf when determineIsLeaf says so;
      otherwise a node named after the chosen column, its left child learned
      from the rows with value 0 and its right child from the rows with value
      1.  Each call removes one column, so the depth is at most the width. */
  function Learn(d: DataSet, gain: Tally -> real): (r: Result<Tree>)
    requires Valid(d)
    ensures r.Ok? ==> Depth(r.value) <= |d.attributeNames|
    ensures r.Ok? ==> forall n :: n in NodeNames(r.value) ==> n in d.attributeNames
    decreases |d.attributeNames|
  {
    match DetermineIsLeaf(d)
    case Some(v) => Ok(Leaf(v))
    case None =>
      if !WideEnough(d) then Err(IndexOutOfBounds)
      else
        var k := SplitIndex(InfoGains(d, gain));
        match SplitSets(d, k)
        case Err(e) => Err(e)
        case Ok((leftSet, rightSet)) =>
          RemoveElementSubset(k, d.attributeNames);
          var left := Learn(leftSet, gain);
          var right := Learn(rightSet, gain);
          if left.Err? then Err(left.error)
          else if right.Err? then Err(right.error)
          else Ok(Node(d.attributeNames[k], left.value, right.value))
  }

  /** ID3.learnTree(DataSet). */
  method LearnTree(d: DataSet, gain: Tally -> real) returns (r: Result<Tree>)
    requires Valid(d)
    ensures r == Learn(d, gain)
    decreases |d.attributeNames|
  {
    var isLeaf := DetermineIsLeaf(d);
    if isLeaf.Some? {
      return Ok(Leaf(isLeaf.value));
    }
    var infoGains := CalcInfoGain(d, gain);
    if infoGains.Err? {
      return Err(infoGains.error);
    }
    var indexOfSplit := DetermineIndexOfSplit(infoGains.value);
    var attributeName := d.attributeNames[indexOfSplit];
    var tuple := Split(d, indexOfSplit);
    if tuple.Err? {
      return Err(tuple.error);
    }
    var left := LearnTree(tuple.value.0, gain);
    if left.Err? {
      return Err(left.error);
    }
    var right := LearnTree(tuple.value.1, gain);
    if right.Err? {
      return Err(right.error);
    }
    r := Ok(Node(attributeName, left.value, right.value));
  }

  /** learnTree(List, List, List): the same two shape checks, then the constructor. */
  function LearnFromLists(attributeNames: seq<string>, observations: seq<seq<bool>>, labels: seq<bool>, gain: Tally -> real): (r: Result<Tree>)
    ensures r == match NewDataSet(attributeNames, observations, labels)
                 case Ok(d) => Learn(d, gain)
                 case Err(e) => Err(e)
  {
    if |observations| == 0 then Err(IndexOutOfBounds)
    else if |attributeNames| != |observations[0]| then Err(AttributeCountMismatch)
    else if |labels| != |observations| then Err(LabelCountMismatch)
    else
      match NewDataSet(attributeNames, observations, labels)
      case Ok(d) => Learn(d, gain)
      case Err(e) => Err(e)
  }

  /** A node is built exactly when determineIsLeaf says "not a leaf"; a leaf
      carries determineIsLeaf's value. */
  lemma LearnLeafIffDetermineIsLeaf(d: DataSet, gain: Tally -> real)
    requires Valid(d)
    ensures DetermineIsLeaf(d).Some? ==> Learn(d, gain) == Ok(Leaf(DetermineIsLeaf(d).value))
    ensures DetermineIsLeaf(d).None? ==> Learn(d, gain).Err? || Learn(d, gain).value.Node?
  {
  }

  /** A learned leaf predicts the common label of a pure set, or else the
      majority label of a set with no columns or one constant value. */
  lemma LearnedLeafIsJustified(d: DataSet, gain: Tally -> real, v: bool)
    requires Valid(d)
    requires Learn(d, gain) == Ok(Leaf(v))
    ensures AllLabelsAre(d.labels, v) ||
      ((|d.attributeNames| == 0 || AllCellsAre(d.observations, d.observations[0][0])) && v == MajorityLabel(d.labels))
  {
  }

  /** The decision nodes: a node is named after the column the scan chose, and
      its children are learned from the false and the true branch. */
  lemma LearnNodeShape(d: DataSet, gain: Tally -> real, name: string, l: Tree, r: Tree)
    requires Valid(d)
    requires Learn(d, gain) == Ok(Node(name, l, r))
    ensures DetermineIsLeaf(d).None? && WideEnough(d)
    ensures var k := SplitIndex(InfoGains(d, gain));
      && k < |d.attributeNames|
      && name == d.attributeNames[k]
      && HasColumn(d.observations, k)
      && SplitSets(d, k).Ok?
      && Learn(SplitSets(d, k).value.0, gain) == Ok(l)
      && Learn(SplitSets(d, k).value.1, gain) == Ok(r)
  {
  }

  /** Every leaf of a learned tree predicts a label that occurs in the data. */
  lemma {:induction false} LearnedLeavesAreLabels(d: DataSet, gain: Tally -> real)
    requires Valid(d)
    requires Learn(d, gain).Ok?
    ensures forall b :: b in LeafValues(Learn(d, gain).value) ==> b in d.labels
    decreases |d.attributeNames|
  {
    var t := Learn(d, gain).value;
    if t.Leaf? {
      LeafValueIsLabel(d);
    } else {
      LearnNodeShape(d, gain, t.attributeName, t.left, t.right);
      var k := SplitIndex(InfoGains(d, gain));
      var (leftSet, rightSet) := SplitSets(d, k).value;
      LearnedLeavesAreLabels(leftSet, gain);
      LearnedLeavesAreLabels(rightSet, gain);
      BranchLabelsAreLabels(d.observations, d.labels, k, false);
      BranchLabelsAreLabels(d.observations, d.labels, k, true);
    }
  }

  /** The value determineIsLeaf predicts occurs among the labels. */
  lemma LeafValueIsLabel(d: DataSet)
    requires Valid(d) && DetermineIsLeaf(d).Some?
    ensures DetermineIsLeaf(d).value in d.labels
  {
    if !AllLabelsAre(d.labels, d.labels[0]) {
      var j :| 0 <= j < |d.labels| && d.labels[j] != d.labels[0];
      assert DetermineIsLeaf(d).value == d.labels[0] || DetermineIsLeaf(d).value == d.labels[j];
    }
  }

  /** A branch's labels are labels of the parent. */
  lemma {:induction false} BranchLabelsAreLabels(observations: seq<seq<bool>>, labels: seq<bool>, index: nat, side: bool)
    requires HasColumn(observations, index) && |observations| <= |labels|
    ensures forall b :: b in BranchLabels(observations, labels, index, side) ==> b in labels
  {
    if |observations| > 0 {
      BranchLabelsAreLabels(observations[..|observations| - 1], labels, index, side);
    }
  }

  /** When the chosen column holds one value in every row, one branch has no
      rows and constructing it fails. */
  lemma ConstantColumnFails(d: DataSet, gain: Tally -> real)
    requires Valid(d) && Rectangular(d)
    requires DetermineIsLeaf(d).None?
    requires var k := SplitIndex(InfoGains(d, gain));
      k < |d.attributeNames| &&
      forall j :: 0 <= j < |d.observations| ==> d.observations[j][k] == d.observations[0][k]
    ensures Learn(d, gain) == Err(IndexOutOfBounds)
  {
    var k := SplitIndex(InfoGains(d, gain));
    SplitOutcome(d, k);
  }

  /** On a rectangular table the only way learning fails is an empty branch. */
  lemma {:induction false} RectangularFailsOnlyOnEmptyBranch(d: DataSet, gain: Tally -> real)
    requires Valid(d) && Rectangular(d)
    ensures Learn(d, gain).Err? ==> Learn(d, gain).error == IndexOutOfBounds
    decreases |d.attributeNames|
  {
    if DetermineIsLeaf(d).None? {
      var k := SplitIndex(InfoGains(d, gain));
      SplitOutcome(d, k);
      if SplitSets(d, k).Ok? {
        var (leftSet, rightSet) := SplitSets(d, k).value;
        RectangularFailsOnlyOnEmptyBranch(leftSet, gain);
        RectangularFailsOnlyOnEmptyBranch(rightSet, gain);
      }
    }
  }

  lemma CountTwoRows(row0: seq<bool>, row1: seq<bool>, label0: bool, label1: bool, i: nat, value: bool, classLabel: bool)
    requires i < |row0| && i < |row1|
    ensures HasColumn([row0, row1], i)
    ensures CountRows([row0, row1], [label0, label1], i, value, classLabel)
      == (if row0[i] == value && label0 == classLabel then 1 else 0) + (if row1[i] == value && label1 == classLabel then 1 else 0)
  {
    var labels := [label0, label1];
    assert [row0, row1][..1] == [row0];
    assert [row0][..0] == [];
    assert CountRows([row0], labels, i, value, classLabel) == (if row0[i] == value && label0 == classLabel then 1 else 0);
  }

  /** The counters of the two columns of that table. */
  lemma DuplicateRowsTallies()
    ensures TallyOf([[true, false], [true, false]], [true, false], 0) == Tally(1, 1, 0, 0)
    ensures TallyOf([[true, false], [true, false]], [true, false], 1) == Tally(0, 0, 1, 1)
  {
    var obs: seq<seq<bool>> := [[true, false], [true, false]];
    var labels := [true, false];
    forall i: nat, value: bool, classLabel: bool | i < 2
      ensures CountRows(obs, labels, i, value, classLabel)
        == (if obs[0][i] == value && labels[0] == classLabel then 1 else 0)
         + (if obs[1][i] == value && labels[1] == classLabel then 1 else 0)
    {
      CountTwoRows(obs[0], obs[1], labels[0], labels[1], i, value, classLabel);
    }
  }

  /** Every row equal to the first row. */
  predicate IdenticalRows(observations: seq<seq<bool>>)
  {
    forall j :: 0 <= j < |observations| ==> observations[j] == observations[0]
  }

  /** A table of identical rows that the leaf test does not make a leaf (the
      labels conflict and the cells are mixed): whatever column is chosen
      holds one value in every row, so one branch is empty and learning fails,
      for every gain function. */
  lemma IdenticalRowsFail(d: DataSet, gain: Tally -> real)
    requires Valid(d) && IdenticalRows(d.observations) && DetermineIsLeaf(d).None?
    ensures Learn(d, gain) == Err(IndexOutOfBounds)
  {
    assert Rectangular(d);
    ConstantColumnFails(d, gain);
  }

  /** Two identical rows with different labels and mixed cells: the leaf test
      splits them, and learning fails (both gains are in fact 0, see
      DuplicateRowsTallies, but any gain function gives the same outcome). */
  lemma DuplicateRowsWithConflictingLabelsFail(gain: Tally -> real)
    ensures Learn(DataSet(["a", "b"], [[true, false], [true, false]], [true, false]), gain) == Err(IndexOutOfBounds)
  {
    EqualRowsAreNotALeaf();
    IdenticalRowsFail(DataSet(["a", "b"], [[true, false], [true, false]], [true, false]), gain);
  }

  // ----- A learner that never builds an empty branch -----

  /** learnTree with one change: when the chosen column has one value in
      every row, the split would leave a branch empty, so the node becomes a
      leaf predicting the majority label instead. */
  function LearnGuarded(d: DataSet, gain: Tally -> real): (r: Result<Tree>)
    requires Valid(d)
    ensures r.Ok? ==> Depth(r.value) <= |d.attributeNames|
    decreases |d.attributeNames|
  {
    match DetermineIsLeaf(d)
    case Some(v) => Ok(Leaf(v))
    case None =>
      if !WideEnough(d) then Err(IndexOutOfBounds)
      else
        var k := SplitIndex(InfoGains(d, gain));
        if |BranchRows(d.observations, k, false)| == 0 || |BranchRows(d.observations, k, true)| == 0 then
          Ok(Leaf(MajorityLabel(d.labels)))
        else
          match SplitSets(d, k)
          case Err(e) => Err(e)
          case Ok((leftSet, rightSet)) =>
            var left := LearnGuarded(leftSet, gain);
            var right := LearnGuarded(rightSet, gain);
            if left.Err? then Err(left.error)
            else if right.Err? then Err(right.error)
            else Ok(Node(d.attributeNames[k], left.value, right.value))
  }

  /** The guarded learner succeeds on every rectangular table. */
  lemma {:induction false} LearnGuardedSucceedsOnRectangular(d: DataSet, gain: Tally -> real)
    requires Valid(d) && Rectangular(d)
    ensures LearnGuarded(d, gain).Ok?
    decreases |d.attributeNames|
  {
    if DetermineIsLeaf(d).None? {
      assert WideEnough(d);
      var k := SplitIndex(InfoGains(d, gain));
      SplitOutcome(d, k);
      if |BranchRows(d.observations, k, false)| > 0 && |BranchRows(d.observations, k, true)| > 0 {
        BranchOfRectangular(d.observations, d.labels, k, false, |d.attributeNames|);
        BranchOfRectangular(d.observations, d.labels, k, true, |d.attributeNames|);
        var (leftSet, rightSet) := SplitSets(d, k).value;
        LearnGuardedSucceedsOnRectangular(leftSet, gain);
        LearnGuardedSucceedsOnRectangular(rightSet, gain);
      }
    }
  }

  /** Wherever learnTree succeeds, the guarded learner builds the same tree. */
  lemma {:induction false} LearnGuardedAgreesWithLearn(d: DataSet, gain: Tally -> real)
    requires Valid(d) && Learn(d, gain).Ok?
    ensures LearnGuarded(d, gain) == Learn(d, gain)
    decreases |d.attributeNames|
  {
    if DetermineIsLeaf(d).None? {
      var k := SplitIndex(InfoGains(d, gain));
      var (leftSet, rightSet) := SplitSets(d, k).value;
      LearnGuardedAgreesWithLearn(leftSet, gain);
      LearnGuardedAgreesWithLearn(rightSet, gain);
    }
  }

  /** Identical rows with conflicting labels: the guarded learner predicts
      the majority label, for every gain function. */
  lemma IdenticalRowsGiveMajorityLeaf(d: DataSet, gain: Tally -> real)
    requires Valid(d) && IdenticalRows(d.observations) && !AllLabelsAre(d.labels, d.labels[0])
    ensures LearnGuarded(d, gain) == Ok(Leaf(MajorityLabel(d.labels)))
  {
    if DetermineIsLeaf(d).None? {
      assert Rectangular(d) && WideEnough(d);
      var k := SplitIndex(InfoGains(d, gain));
      BranchOfRectangular(d.observations, d.labels, k, !d.observations[0][k], |d.attributeNames|);
    }
  }

  /** On the table of two identical rows with conflicting labels, the guarded
      learner predicts the majority label, true on a tie. */
  lemma DuplicateRowsGiveMajorityLeaf(gain: Tally -> real)
    ensures LearnGuarded(DataSet(["a", "b"], [[true, false], [true, false]], [true, false]), gain) == Ok(Leaf(true))
  {
    var d := DataSet(["a", "b"], [[true, false], [true, false]], [true, false]);
    assert d.labels[1] != d.labels[0];
    IdenticalRowsGiveMajorityLeaf(d, gain);
    assert [true, false][..1] == [true];
    assert MajorityLabel(d.labels);
  }

  // ----- createDiagram -----

  /** Tree.createDiagram: a pre-order rendering; each level below the root
      adds "| " to the padding. */
  function Diagram(t: Tree, padding: string): (r: string)
    ensures |r| > 0 && r[|r| - 1] == '\n'
  {
    match t
    case Leaf(v) => (if v then " 1" else " 0") + "\n"
    case Node(name, l, right) =>
      var head := (if |padding| == 0 then "" else "\n") + padding + name + " = 0 :";
      var middle := padding + name + " = 1 :";
      head + Diagram(l, padding + "| ") + middle + Diagram(right, padding + "| ")
  }

  /** Tree.getTreeDiagram. */
  function GetTreeDiagram(t: Tree): (r: string)
    ensures |r| > 0 && r[|r| - 1] == '\n'
    ensures t.Leaf? ==> r == (if t.predictedValue then " 1\n" else " 0\n")
    ensures t.Node? ==> t.attributeName + " = 0 :" <= r
  {
    Diagram(t, "")
  }

  /** A single decision: two lines, one per value of the attribute. */
  lemma DiagramExample()
    ensures GetTreeDiagram(Node("a", Leaf(true), Leaf(false))) == "a = 0 : 1\na = 1 : 0\n"
  {
    var zero := Diagram(Leaf(true), "| ");
    var one := Diagram(Leaf(false), "| ");
    assert zero == " 1\n";
    assert one == " 0\n";
    assert GetTreeDiagram(Node("a", Leaf(true), Leaf(false))) == "a = 0 :" + zero + "a = 1 :" + one;
  }

  function LeafCount(t: Tree): nat
  {
    match t
    case Leaf(_) => 1
    case Node(_, l, r) => LeafCount(l) + LeafCount(r)
  }

  function NodeCount(t: Tree): nat
  {
    match t
    case Leaf(_) => 0
    case Node(_, l, r) => 1 + NodeCount(l) + NodeCount(r)
  }

  predicate NamesWithoutNewline(t: Tree)
  {
    match t
    case Leaf(_) => true
    case Node(name, l, r) => '\n' !in name && NamesWithoutNewline(l) && NamesWithoutNewline(r)
  }

  lemma NewlineCountAppend(a: string, b: string)
    ensures NewlineCount(a + b) == NewlineCount(a) + NewlineCount(b)
  {
    assert multiset(a + b) == multiset(a) + multiset(b);
  }

  lemma NoNewline(s: string)
    requires '\n' !in s
    ensures NewlineCount(s) == 0
  {
    assert '\n' !in multiset(s);
  }

  lemma DeeperPadding(padding: string)
    requires '\n' !in padding
    ensures '\n' !in padding + "| "
  {
    assert forall k :: 0 <= k < |padding| ==> (padding + "| ")[k] == padding[k];
  }

  /** A leaf's diagram is one line. */
  lemma DiagramLeafNewlines(v: bool, padding: string)
    ensures NewlineCount(Diagram(Leaf(v), padding)) == 1
  {
    var mark := if v then " 1" else " 0";
    NewlineCountAppend(mark, "\n");
    NoNewline(mark);
    assert NewlineCount("\n") == 1 by {
      assert multiset("\n") == multiset{'\n'};
    }
  }

  /** The newlines of a decision node's diagram: one opening it when it is
      not the root, plus those of the two children's diagrams. */
  lemma DiagramNodeNewlines(name: string, l: Tree, r: Tree, padding: string)
    requires '\n' !in padding && '\n' !in name
    ensures NewlineCount(Diagram(Node(name, l, r), padding))
      == (if |padding| == 0 then 0 else 1) + NewlineCount(Diagram(l, padding + "| ")) + NewlineCount(Diagram(r, padding + "| "))
  {
    var deeper := padding + "| ";
    var opening := if |padding| == 0 then "" else "\n";
    var head := opening + padding + name + " = 0 :";
    var middle := padding + name + " = 1 :";
    assert Diagram(Node(name, l, r), padding) == head + Diagram(l, deeper) + middle + Diagram(r, deeper);
    NoNewline(padding);
    NoNewline(name);
    NoNewline(" = 0 :");
    NoNewline(" = 1 :");
    assert NewlineCount(opening) == (if |padding| == 0 then 0 else 1) by {
      if |padding| != 0 {
        assert multiset(opening) == multiset{'\n'};
      }
    }
    NewlineCountAppend(opening, padding);
    NewlineCountAppend(opening + padding, name);
    NewlineCountAppend(opening + padding + name, " = 0 :");
    NewlineCountAppend(padding, name);
    NewlineCountAppend(padding + name, " = 1 :");
    NewlineCountAppend(head, Diagram(l, deeper));
    NewlineCountAppend(head + Diagram(l, deeper), middle);
    NewlineCountAppend(head + Diagram(l, deeper) + middle, Diagram(r, deeper));
  }

  /** Every leaf ends a line and every decision node below the root starts
      one: the diagram has one line per leaf and per non-root decision node. */
  lemma {:induction false} DiagramLineCount(t: Tree, padding: string)
    requires '\n' !in padding && NamesWithoutNewline(t)
    ensures NewlineCount(Diagram(t, padding)) == LeafCount(t) + NodeCount(t) - (if |padding| == 0 && t.Node? then 1 else 0)
  {
    match t
    case Leaf(v) =>
      DiagramLeafNewlines(v, padding);
    case Node(name, l, r) =>
      var deeper := padding + "| ";
      DiagramNodeNewlines(name, l, r, padding);
      DeeperPadding(padding);
      DiagramLineCount(l, deeper);
      DiagramLineCount(r, deeper);
  }
}
