/**
 * TabSeparatedBeanReader.readDataFromStream: the tolerant read loop shared by both
 * parsers. The bean class, its cell processors and its header names are fixed per
 * parser; here they are folded into one conversion function from a row to a bean or
 * to the SuperCsvException the row raises.
 */
module TabSeparatedBeanReader {
  import opened Wrappers
  import opened CellProcessors

  /** The lines the read loop sees: when the flag is set, getHeader(true) has consumed the first one. */
  function DataRows(stream: seq<Row>, readFirstLine: bool): seq<Row> {
    if readFirstLine && stream != [] then stream[1..] else stream
  }

  /** The beans of the rows that convert, in input order; a row that raises contributes nothing. */
  function Surviving<T>(convert: Row -> Result<T, CellError>, rows: seq<Row>): seq<T> {
    if rows == [] then []
    else
      Surviving(convert, rows[..|rows| - 1]) +
        match convert(rows[|rows| - 1])
        case Ok(bean) => [bean]
        case Err(_) => []
  }

  /**
   * The read loop: after the optional header, read rows until the end of the input;
   * append the bean of every row that converts and skip (log) every row that raises.
   */
  method ReadDataFromStream<T>(convert: Row -> Result<T, CellError>, stream: seq<Row>, readFirstLine: bool)
    returns (beans: seq<T>)
    ensures beans == Surviving(convert, DataRows(stream, readFirstLine))
  {
    var pos := 0;
    if readFirstLine && pos < |stream| {
      pos := 1;
    }
    ghost var first := pos;
    beans := [];
    var carryOn := true;
    while carryOn
      invariant first <= pos <= |stream|
      invariant stream[first..] == DataRows(stream, readFirstLine)
      invariant beans == Surviving(convert, stream[first..pos])
      invariant !carryOn ==> pos == |stream|
      decreases |stream| - pos, carryOn
    {
      if pos == |stream| {
        carryOn := false;
      } else {
        var row := stream[pos];
        assert stream[first..pos + 1][..pos - first] == stream[first..pos];
        pos := pos + 1;
        match convert(row)
        case Ok(bean) => beans := beans + [bean];
        case Err(_) =>
      }
    }
    assert stream[first..pos] == stream[first..];
  }

  /** With the flag set, the beans are exactly the results of the rows after the first that convert. */
  lemma HeaderedMembers<T>(convert: Row -> Result<T, CellError>, stream: seq<Row>, bean: T)
    ensures bean in Surviving(convert, DataRows(stream, true)) <==>
      exists k :: 1 <= k < |stream| && convert(stream[k]) == Ok(bean)
  {
    SurvivingMembers(convert, DataRows(stream, true), bean);
    if exists k :: 1 <= k < |stream| && convert(stream[k]) == Ok(bean) {
      var k :| 1 <= k < |stream| && convert(stream[k]) == Ok(bean);
      assert stream[1..][k - 1] == stream[k];
    }
    if bean in Surviving(convert, DataRows(stream, true)) {
      var k :| 0 <= k < |stream[1..]| && convert(stream[1..][k]) == Ok(bean);
      assert stream[k + 1] == stream[1..][k];
    }
  }

  /** With the flag clear, the beans are exactly the results of all rows that convert. */
  lemma UnheaderedMembers<T>(convert: Row -> Result<T, CellError>, stream: seq<Row>, bean: T)
    ensures bean in Surviving(convert, DataRows(stream, false)) <==>
      exists k :: 0 <= k < |stream| && convert(stream[k]) == Ok(bean)
  {
    SurvivingMembers(convert, stream, bean);
  }

  /** At most one bean per data row. */
  lemma {:induction false} SurvivingLength<T>(convert: Row -> Result<T, CellError>, rows: seq<Row>)
    ensures |Surviving(convert, rows)| <= |rows|
  {
    if rows != [] {
      SurvivingLength(convert, rows[..|rows| - 1]);
    }
  }

  /** Reading two stretches of rows one after the other yields their beans one after the other. */
  lemma {:induction false} SurvivingAppend<T>(convert: Row -> Result<T, CellError>, a: seq<Row>, b: seq<Row>)
    ensures Surviving(convert, a + b) == Surviving(convert, a) + Surviving(convert, b)
  {
    if b == [] {
      assert a + b == a;
    } else {
      SurvivingAppend(convert, a, b[..|b| - 1]);
      assert (a + b)[..|a + b| - 1] == a + b[..|b| - 1];
      assert (a + b)[|a + b| - 1] == b[|b| - 1];
    }
  }

  /** The beans are exactly the results of the rows that convert: every one comes from such a row and every such row gives one. */
  lemma {:induction false} SurvivingMembers<T>(convert: Row -> Result<T, CellError>, rows: seq<Row>, bean: T)
    ensures bean in Surviving(convert, rows) <==> exists k :: 0 <= k < |rows| && convert(rows[k]) == Ok(bean)
  {
    if rows != [] {
      var init := rows[..|rows| - 1];
      SurvivingMembers(convert, init, bean);
      if exists k :: 0 <= k < |rows| && convert(rows[k]) == Ok(bean) {
        var k :| 0 <= k < |rows| && convert(rows[k]) == Ok(bean);
        if k < |rows| - 1 {
          assert init[k] == rows[k];
        }
      }
      if exists k :: 0 <= k < |init| && convert(init[k]) == Ok(bean) {
        var k :| 0 <= k < |init| && convert(init[k]) == Ok(bean);
        assert rows[k] == init[k];
      }
    }
  }

  /** When every row converts, there is one bean per row, in input order. */
  lemma {:induction false} SurvivingAllOk<T>(convert: Row -> Result<T, CellError>, rows: seq<Row>)
    requires forall k :: 0 <= k < |rows| ==> convert(rows[k]).Ok?
    ensures |Surviving(convert, rows)| == |rows|
    ensures forall k :: 0 <= k < |rows| ==> Surviving(convert, rows)[k] == convert(rows[k]).value
  {
    if rows != [] {
      var init := rows[..|rows| - 1];
      assert forall k :: 0 <= k < |init| ==> init[k] == rows[k];
      SurvivingAllOk(convert, init);
    }
  }

  /** A row that raises is skipped and reading carries on with the next row. */
  lemma SurvivingSkipsBadRow<T>(convert: Row -> Result<T, CellError>, before: seq<Row>, bad: Row, after: seq<Row>)
    requires convert(bad).Err?
    ensures Surviving(convert, before + [bad] + after) == Surviving(convert, before) + Surviving(convert, after)
  {
    SurvivingAppend(convert, before + [bad], after);
    SurvivingAppend(convert, before, [bad]);
    SurvivingOne(convert, bad);
  }

  /** A single row gives its bean, or nothing when it raises. */
  lemma SurvivingOne<T>(convert: Row -> Result<T, CellError>, row: Row)
    ensures Surviving(convert, [row]) == if convert(row).Ok? then [convert(row).value] else []
  {
    assert [row][..0] == [];
  }

  /** One bad row among N good ones yields N beans. */
  lemma OneBadRowAmongGood<T>(convert: Row -> Result<T, CellError>, before: seq<Row>, bad: Row, after: seq<Row>)
    requires convert(bad).Err?
    requires forall k :: 0 <= k < |before| ==> convert(before[k]).Ok?
    requires forall k :: 0 <= k < |after| ==> convert(after[k]).Ok?
    ensures |Surviving(convert, before + [bad] + after)| == |before| + |after|
  {
    SurvivingSkipsBadRow(convert, before, bad, after);
    SurvivingAllOk(convert, before);
    SurvivingAllOk(convert, after);
  }

  /** With the flag set the first line is a header and never yields a bean. */
  lemma HeaderLineIgnored<T>(convert: Row -> Result<T, CellError>, header: Row, rest: seq<Row>)
    ensures Surviving(convert, DataRows([header] + rest, true)) == Surviving(convert, rest)
  {
    assert ([header] + rest)[1..] == rest;
  }

  /** With the flag clear the first line is data: if it converts, its bean comes first. */
  lemma FirstLineIsData<T>(convert: Row -> Result<T, CellError>, first: Row, rest: seq<Row>)
    requires convert(first).Ok?
    ensures Surviving(convert, DataRows([first] + rest, false)) == [convert(first).value] + Surviving(convert, rest)
  {
    SurvivingAppend(convert, [first], rest);
    SurvivingOne(convert, first);
  }
}
