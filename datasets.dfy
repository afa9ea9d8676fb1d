/**
 * The data set of the ID3 learner: attribute names, a table of boolean
 * observations and one boolean class label per observation.  A value once
 * built; the constructor only validates the shape of what it is given.
 */
module DataSets {

  /** The exceptions the Java code raises on a malformed table. */
  datatype Error =
    | IndexOutOfBounds        // a list read past its end: observations.get(0) on no rows, a short row
    | AttributeCountMismatch  // "There must exist an attribute name for each attribute."
    | LabelCountMismatch      // "There must exists a label for each observation."

  datatype Result<T> = Ok(value: T) | Err(error: Error)

  datatype DataSet = DataSet(attributeNames: seq<string>, observations: seq<seq<bool>>, labels: seq<bool>)

  /** What the constructor establishes: at least one row, as many names as
      row 0 has values, and one label per row.  Only row 0's width is checked. */
  predicate Valid(d: DataSet)
  {
    |d.observations| > 0 && |d.attributeNames| == |d.observations[0]| && |d.labels| == |d.observations|
  }

  /** Every row as wide as the header: stronger than Valid, never checked. */
  predicate Rectangular(d: DataSet)
  {
    forall j :: 0 <= j < |d.observations| ==> |d.observations[j]| == |d.attributeNames|
  }

  /** The constructor.  The getters of the Java class are the destructors of
      the datatype, so they return exactly what was passed in. */
  function NewDataSet(attributeNames: seq<string>, observations: seq<seq<bool>>, labels: seq<bool>): (r: Result<DataSet>)
    ensures r.Ok? <==> Valid(DataSet(attributeNames, observations, labels))
    ensures r.Ok? ==> r.value.attributeNames == attributeNames && r.value.observations == observations && r.value.labels == labels
    ensures |observations| == 0 ==> r == Err(IndexOutOfBounds)
    ensures |observations| > 0 && |attributeNames| != |observations[0]| ==> r == Err(AttributeCountMismatch)
    ensures |observations| > 0 && |attributeNames| == |observations[0]| && |labels| != |observations| ==> r == Err(LabelCountMismatch)
  {
    if |observations| == 0 then Err(IndexOutOfBounds)
    else if |attributeNames| != |observations[0]| then Err(AttributeCountMismatch)
    else if |labels| != |observations| then Err(LabelCountMismatch)
    else Ok(DataSet(attributeNames, observations, labels))
  }

  /** Only row 0 is measured: a ragged table is accepted. */
  lemma RaggedTableAccepted()
    ensures NewDataSet(["a"], [[true], [true, false]], [true, false]).Ok?
    ensures !Rectangular(NewDataSet(["a"], [[true], [true, false]], [true, false]).value)
  {
    var d := NewDataSet(["a"], [[true], [true, false]], [true, false]).value;
    assert |d.observations[1]| != |d.attributeNames|;
  }

  // ----- The text rendering of toString -----

  function Digit(b: bool): string
  {
    if b then "1" else "0"
  }

  /** The names separated by single spaces. */
  function Join(names: seq<string>): string
  {
    if |names| == 0 then ""
    else if |names| == 1 then names[0]
    else names[0] + " " + Join(names[1..])
  }

  /** Each value of a row as "1 " or "0 ". */
  function Cells(row: seq<bool>): string
  {
    if |row| == 0 then "" else Cells(row[..|row| - 1]) + Digit(row[|row| - 1]) + " "
  }

  /** One row line: its values, the label right after the last value (no
      label at all when the row has no values), then a line break. */
  function RowLine(row: seq<bool>, classLabel: bool): string
  {
    Cells(row) + (if |row| > 0 then Digit(classLabel) else "") + "\n"
  }

  /** The row lines of the first |observations| rows. */
  function RowLines(observations: seq<seq<bool>>, labels: seq<bool>): string
    requires |observations| <= |labels|
  {
    if |observations| == 0 then ""
    else RowLines(observations[..|observations| - 1], labels)
         + RowLine(observations[|observations| - 1], labels[|observations| - 1])
  }

  /** The whole text: a header line, then one line per observation. */
  function Render(d: DataSet): string
    requires Valid(d)
  {
    Join(d.attributeNames) + "\n" + RowLines(d.observations, d.labels)
  }

  function NewlineCount(s: string): nat
  {
    multiset(s)['\n']
  }

  /** Appending a name to a non-empty list adds one space and the name. */
  lemma {:induction false} JoinSnoc(names: seq<string>, name: string)
    requires |names| > 0
    ensures Join(names + [name]) == Join(names) + " " + name
  {
    if |names| == 1 {
      assert names + [name] == [names[0], name];
    } else {
      assert (names + [name])[1..] == names[1..] + [name];
      JoinSnoc(names[1..], name);
    }
  }

  /** Splits a string at every single space (the inverse of Join). */
  function SplitSpaces(s: string): (r: seq<string>)
    ensures |r| > 0
    decreases |s|
  {
    if ' ' in s then
      var k := FirstSpace(s);
      [s[..k]] + SplitSpaces(s[k + 1..])
    else [s]
  }

  function FirstSpace(s: string): (k: nat)
    requires ' ' in s
    ensures k < |s| && s[k] == ' ' && ' ' !in s[..k]
  {
    if s[0] == ' ' then 0
    else
      assert ' ' in s[1..] by { var i :| 0 <= i < |s| && s[i] == ' '; assert s[1..][i - 1] == ' '; }
      var k := FirstSpace(s[1..]);
      assert s[..k + 1] == [s[0]] + s[1..][..k];
      k + 1
  }

  /** The header round-trips: names without spaces are recovered from their join. */
  lemma {:induction false} SplitJoin(names: seq<string>)
    requires |names| > 0
    requires forall k :: 0 <= k < |names| ==> ' ' !in names[k]
    ensures SplitSpaces(Join(names)) == names
  {
    if |names| == 1 {
    } else {
      var s := Join(names);
      var first := names[0];
      assert s == first + " " + Join(names[1..]);
      assert s[|first|] == ' ';
      var k := FirstSpace(s);
      assert k == |first|;
      assert s[..k] == first;
      assert s[k + 1..] == Join(names[1..]);
      SplitJoin(names[1..]);
      assert [first] + names[1..] == names;
    }
  }

  /** The characters of Cells: value k at position 2k, a space after it. */
  lemma {:induction false} CellsAt(row: seq<bool>)
    ensures |Cells(row)| == 2 * |row|
    ensures forall k :: 0 <= k < |row| ==> Cells(row)[2 * k] == Digit(row[k])[0] && Cells(row)[2 * k + 1] == ' '
  {
    if |row| > 0 {
      var p := row[..|row| - 1];
      CellsAt(p);
      forall k | 0 <= k < |row|
        ensures Cells(row)[2 * k] == Digit(row[k])[0] && Cells(row)[2 * k + 1] == ' '
      {
        if k < |p| {
          assert Cells(row)[2 * k] == Cells(p)[2 * k];
          assert Cells(row)[2 * k + 1] == Cells(p)[2 * k + 1];
        }
      }
    }
  }

  /** The shape of a row line: 2|row| characters of values, the label digit
      when the row has values, and a final line break. */
  lemma RowLineShape(row: seq<bool>, classLabel: bool)
    ensures |RowLine(row, classLabel)| == 2 * |row| + (if |row| > 0 then 1 else 0) + 1
    ensures forall k :: 0 <= k < |row| ==> RowLine(row, classLabel)[2 * k] == (if row[k] then '1' else '0')
    ensures forall k :: 0 <= k < |row| ==> RowLine(row, classLabel)[2 * k + 1] == ' '
    ensures |row| > 0 ==> RowLine(row, classLabel)[2 * |row|] == (if classLabel then '1' else '0')
    ensures RowLine(row, classLabel)[|RowLine(row, classLabel)| - 1] == '\n'
    ensures |row| == 0 ==> RowLine(row, classLabel) == "\n"
  {
    CellsAt(row);
    var line := RowLine(row, classLabel);
    forall k | 0 <= k < |row|
      ensures line[2 * k] == (if row[k] then '1' else '0') && line[2 * k + 1] == ' '
    {
      assert line[2 * k] == Cells(row)[2 * k];
      assert line[2 * k + 1] == Cells(row)[2 * k + 1];
    }
  }

  /** A row line with at least one value determines the row and its classLabel. */
  lemma RowLineInjective(row1: seq<bool>, classLabel1: bool, row2: seq<bool>, classLabel2: bool)
    requires |row1| > 0
    requires RowLine(row1, classLabel1) == RowLine(row2, classLabel2)
    ensures row1 == row2 && classLabel1 == classLabel2
  {
    RowLineShape(row1, classLabel1);
    RowLineShape(row2, classLabel2);
    assert |row1| == |row2|;
    forall k | 0 <= k < |row1| ensures row1[k] == row2[k] {
      assert RowLine(row1, classLabel1)[2 * k] == RowLine(row2, classLabel2)[2 * k];
    }
  }

  /** Each row line holds exactly one line break, its last character. */
  lemma {:induction false} RowLinesNewlines(observations: seq<seq<bool>>, labels: seq<bool>)
    requires |observations| <= |labels|
    ensures NewlineCount(RowLines(observations, labels)) == |observations|
  {
    if |observations| > 0 {
      var n := |observations|;
      RowLinesNewlines(observations[..n - 1], labels);
      CellsNewlines(observations[n - 1]);
    }
  }

  lemma {:induction false} CellsNewlines(row: seq<bool>)
    ensures NewlineCount(Cells(row)) == 0
  {
    if |row| > 0 {
      CellsNewlines(row[..|row| - 1]);
    }
  }

  lemma {:induction false} JoinNewlines(names: seq<string>)
    requires forall k :: 0 <= k < |names| ==> '\n' !in names[k]
    ensures NewlineCount(Join(names)) == 0
  {
    if |names| > 1 {
      JoinNewlines(names[1..]);
    }
  }

  /** When no name holds a line break, the text has 1 + |observations| lines. */
  lemma RenderLineCount(d: DataSet)
    requires Valid(d)
    requires forall k :: 0 <= k < |d.attributeNames| ==> '\n' !in d.attributeNames[k]
    ensures NewlineCount(Render(d)) == 1 + |d.observations|
  {
    JoinNewlines(d.attributeNames);
    RowLinesNewlines(d.observations, d.labels);
  }

  // ----- Loop states of the StringBuilder loops in toString -----

  /** The header text after the first i names: a separating space follows
      every name but the last. */
  function PartialHeader(names: seq<string>, i: nat): string
    requires i <= |names|
  {
    Join(names[..i]) + (if 0 < i < |names| then " " else "")
  }

  lemma HeaderStep(names: seq<string>, i: nat, separator: string)
    requires i < |names|
    requires separator == (if i != |names| - 1 then " " else "")
    ensures PartialHeader(names, i + 1) == PartialHeader(names, i) + names[i] + separator
    ensures i + 1 == |names| ==> PartialHeader(names, i + 1) == Join(names)
  {
    var next := names[..i + 1];
    TakeSnoc(names, i);
    if i == 0 {
      assert next == [names[0]];
      assert Join(next) == names[0];
    } else {
      JoinSnoc(names[..i], names[i]);
      assert Join(next) == Join(names[..i]) + " " + names[i];
    }
    if i + 1 == |names| {
      TakeAll(names);
    }
  }

  /** Generic facts about prefixes, stated once so that sequences of strings
      are not compared element by element. */
  lemma TakeSnoc<T>(s: seq<T>, i: nat)
    requires i < |s|
    ensures s[..i + 1] == s[..i] + [s[i]]
    ensures s[..i + 1][..i] == s[..i]
  {
  }

  lemma TakeAll<T>(s: seq<T>)
    ensures s[..|s|] == s
  {
  }

  /** The row text after the first i values of a row: the label is appended
      together with the last value. */
  function PartialRow(row: seq<bool>, classLabel: bool, i: nat): string
    requires i <= |row|
  {
    Cells(row[..i]) + (if i == |row| && i > 0 then Digit(classLabel) else "")
  }

  lemma PartialRowStep(prefix: string, row: seq<bool>, classLabel: bool, i: nat, cell: string, tail: string)
    requires i < |row|
    requires cell == (if row[i] then "1 " else "0 ")
    requires tail == (if i == |row| - 1 then Digit(classLabel) else "")
    ensures prefix + PartialRow(row, classLabel, i + 1) == prefix + PartialRow(row, classLabel, i) + cell + tail
  {
    assert row[..i + 1][..i] == row[..i];
  }

  lemma PartialRowDone(prefix: string, row: seq<bool>, classLabel: bool)
    ensures prefix + PartialRow(row, classLabel, |row|) + "\n" == prefix + RowLine(row, classLabel)
  {
    assert row[..|row|] == row;
  }

  lemma RowLinesStep(header: string, observations: seq<seq<bool>>, labels: seq<bool>, j: nat)
    requires j < |observations| <= |labels|
    ensures header + RowLines(observations[..j + 1], labels) == header + RowLines(observations[..j], labels) + RowLine(observations[j], labels[j])
  {
    var lines := RowLines(observations[..j], labels);
    var line := RowLine(observations[j], labels[j]);
    assert observations[..j + 1][..j] == observations[..j];
    assert RowLines(observations[..j + 1], labels) == lines + line;
    Associative(header, lines, line);
  }

  lemma Associative(a: string, b: string, c: string)
    ensures a + (b + c) == a + b + c
  {
  }

  /** DataSet.toString: appends the names, then each row's values and label. */
  method ToString(d: DataSet) returns (s: string)
    requires Valid(d)
    ensures s == Render(d)
  {
    var names := d.attributeNames;
    s := "";
    for i := 0 to |names|
      invariant s == PartialHeader(names, i)
    {
      HeaderStep(names, i, if i != |names| - 1 then " " else "");
      s := s + names[i];
      if i != |names| - 1 {
        s := s + " ";
      }
    }
    TakeAll(names);
    assert s == Join(names);
    s := s + "\n";
    ghost var header := s;
    var labelIndex := 0;
    for j := 0 to |d.observations|
      invariant labelIndex == j
      invariant s == header + RowLines(d.observations[..j], d.labels)
    {
      var elements := d.observations[j];
      ghost var before := s;
      for i := 0 to |elements|
        invariant s == before + PartialRow(elements, d.labels[j], i)
      {
        var cell := if elements[i] then "1 " else "0 ";
        PartialRowStep(before, elements, d.labels[j], i, cell, if i == |elements| - 1 then Digit(d.labels[j]) else "");
        s := s + cell;
        if i == |elements| - 1 {
          s := s + (if d.labels[labelIndex] then "1" else "0");
        }
      }
      PartialRowDone(before, elements, d.labels[j]);
      s := s + "\n";
      RowLinesStep(header, d.observations, d.labels, j);
      labelIndex := labelIndex + 1;
    }
    TakeAll(d.observations);
  }
}
