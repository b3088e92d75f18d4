/**
 * The per-column conversion rules of the tab-separated readers (SuperCSV cell processor
 * chains) and the population of a bean from the processed columns.
 *
 * A row arrives already split into cells; an empty cell is `None` (SuperCSV reads it
 * as null). A column's chain is one of NotNull(...) or Optional(...), wrapping an
 * optional Trim() and an optional ParseInt() or ParseDouble().
 */
module CellProcessors {
  import opened Wrappers
  import opened JavaText

  type Cell = Option<string>
  type Row = seq<Cell>

  /** The innermost processor of a chain: ParseInt(), ParseDouble(), or none at all. */
  datatype Conversion = ToInt | ToDouble | Verbatim

  /** NotNull(...) when `required`, Optional(...) otherwise; `trim` when the chain holds Trim(). */
  datatype CellRule = CellRule(required: bool, trim: bool, conversion: Conversion)

  /** What a processor chain hands to the bean setter: an Integer, a Double or a String. */
  datatype Value = IntValue(i: int32) | DoubleValue(d: real) | StringValue(s: string)

  /** The SuperCsvException that makes the reader drop a row. */
  datatype CellError =
    | NullCell(column: nat)
    | NotAnInt(column: nat, text: string)
    | NotADouble(column: nat, text: string)
    | ColumnCount(expected: nat, found: nat)

  /** The conversion step applied to a present (and possibly trimmed) cell. */
  function Convert(conversion: Conversion, column: nat, text: string): Result<Value, CellError> {
    match conversion
    case ToInt => (match ParseInt(text)
      case Some(n) => Ok(IntValue(n))
      case None => Err(NotAnInt(column, text)))
    case ToDouble => (match ParseDouble(text)
      case Some(d) => Ok(DoubleValue(d))
      case None => Err(NotADouble(column, text)))
    case Verbatim => Ok(StringValue(text))
  }

  /**
   * One column's chain on one cell. NotNull throws on null; Optional passes null through
   * without running the rest of the chain; otherwise Trim (if any) runs before the parse.
   */
  function ApplyRule(rule: CellRule, column: nat, cell: Cell): (r: Result<Option<Value>, CellError>)
    ensures cell.None? ==> (r.Ok? <==> !rule.required) && (r.Ok? ==> r.value.None?)
    ensures cell.Some? ==> r.Ok? ==> r.value.Some?
  {
    match cell
    case None => if rule.required then Err(NullCell(column)) else Ok(None)
    case Some(s) =>
      match Convert(rule.conversion, column, if rule.trim then Trim(s) else s)
      case Ok(v) => Ok(Some(v))
      case Err(e) => Err(e)
  }

  /** How one column's chain treats one cell: ApplyRule, or any other chain of the same shape. */
  type Chain = (CellRule, nat, Cell) -> Result<Option<Value>, CellError>

  /**
   * The chains `rules` applied to `row` from column `column` on, left to right; the
   * first failure is thrown and the remaining columns are not processed.
   */
  function ProcessCells(apply: Chain, rules: seq<CellRule>, row: Row, column: nat): (r: Result<seq<Option<Value>>, CellError>)
    requires |rules| == |row|
    ensures r.Ok? ==> |r.value| == |row|
    decreases |row|
  {
    if row == [] then Ok([])
    else
      match apply(rules[0], column, row[0])
      case Err(e) => Err(e)
      case Ok(v) =>
        match ProcessCells(apply, rules[1..], row[1..], column + 1)
        case Err(e) => Err(e)
        case Ok(vs) => Ok([v] + vs)
  }

  /** A row is processed column by column; a row of the wrong width is rejected. */
  function ProcessRow(rules: seq<CellRule>, row: Row): (r: Result<seq<Option<Value>>, CellError>)
    ensures r.Ok? ==> |row| == |rules| == |r.value|
  {
    if |row| != |rules| then Err(ColumnCount(|rules|, |row|)) else ProcessCells(ApplyRule, rules, row, 0)
  }

  /** ProcessCells succeeds exactly when every column's chain does, and keeps the results in column order. */
  lemma {:induction false} ProcessCellsOk(apply: Chain, rules: seq<CellRule>, row: Row, column: nat)
    requires |rules| == |row|
    ensures ProcessCells(apply, rules, row, column).Ok? <==>
      forall k :: 0 <= k < |row| ==> apply(rules[k], column + k, row[k]).Ok?
    ensures ProcessCells(apply, rules, row, column).Ok? ==>
      var vs := ProcessCells(apply, rules, row, column).value;
      |vs| == |row| && forall k :: 0 <= k < |row| ==> apply(rules[k], column + k, row[k]) == Ok(vs[k])
  {
    if row != [] {
      ProcessCellsOk(apply, rules[1..], row[1..], column + 1);
      var first := apply(rules[0], column, row[0]);
      if first.Ok? && ProcessCells(apply, rules[1..], row[1..], column + 1).Ok? {
        var vs := ProcessCells(apply, rules, row, column).value;
        forall k | 0 <= k < |row|
          ensures apply(rules[k], column + k, row[k]) == Ok(vs[k])
        {
          if k > 0 {
            assert rules[k] == rules[1..][k - 1] && row[k] == row[1..][k - 1];
          }
        }
      } else if first.Ok? {
        var k' :| 0 <= k' < |row| - 1 && !apply(rules[1..][k'], column + 1 + k', row[1..][k']).Ok?;
        assert !apply(rules[k' + 1], column + (k' + 1), row[k' + 1]).Ok?;
      }
    }
  }

  /** ProcessRow succeeds exactly when the row has one cell per rule and every cell passes its rule. */
  lemma ProcessRowOk(rules: seq<CellRule>, row: Row)
    ensures ProcessRow(rules, row).Ok? <==>
      |row| == |rules| && forall k :: 0 <= k < |row| ==> ApplyRule(rules[k], k, row[k]).Ok?
    ensures ProcessRow(rules, row).Ok? ==>
      var vs := ProcessRow(rules, row).value;
      |vs| == |rules| && forall k :: 0 <= k < |row| ==> ApplyRule(rules[k], k, row[k]) == Ok(vs[k])
  {
    if |row| == |rules| {
      ProcessCellsOk(ApplyRule, rules, row, 0);
    }
  }

  /** ParseDouble's verdict decides the ToDouble conversion. */
  lemma ConvertDouble(column: nat, text: string)
    ensures Convert(ToDouble, column, text).Ok? <==> ParseDouble(text).Some?
    ensures ParseDouble(text).Some? ==> Convert(ToDouble, column, text).value == DoubleValue(ParseDouble(text).value)
  {
  }

  /** A chain that trims sees two cells alike when they trim to the same text. */
  lemma ApplyRuleTrimmed(rule: CellRule, column: nat, a: string, b: string)
    requires rule.trim && Trim(a) == Trim(b)
    ensures ApplyRule(rule, column, Some(a)) == ApplyRule(rule, column, Some(b))
  {
  }

  /** A row whose first column fails is rejected with that column's exception, whatever follows. */
  lemma FirstCellFails(rules: seq<CellRule>, row: Row)
    requires |rules| == |row| > 0 && ApplyRule(rules[0], 0, row[0]).Err?
    ensures ProcessRow(rules, row) == Err(ApplyRule(rules[0], 0, row[0]).error)
  {
    assert ProcessRow(rules, row) == ProcessCells(ApplyRule, rules, row, 0);
  }

  /** ProcessCells looks at the first cell only through its chain's result. */
  lemma ProcessCellsHead(apply: Chain, rules: seq<CellRule>, row: Row, row': Row, column: nat)
    requires |rules| == |row| == |row'| > 0 && row[1..] == row'[1..]
    requires apply(rules[0], column, row[0]) == apply(rules[0], column, row'[0])
    ensures ProcessCells(apply, rules, row, column) == ProcessCells(apply, rules, row', column)
  {
  }

  /** ProcessCells looks at the other cells only through their result. */
  lemma ProcessCellsTail(apply: Chain, rules: seq<CellRule>, row: Row, row': Row, column: nat)
    requires |rules| == |row| == |row'| > 0 && row[0] == row'[0]
    requires ProcessCells(apply, rules[1..], row[1..], column + 1) == ProcessCells(apply, rules[1..], row'[1..], column + 1)
    ensures ProcessCells(apply, rules, row, column) == ProcessCells(apply, rules, row', column)
  {
  }

  /** Replacing one cell by another that its chain treats the same way changes nothing. */
  lemma {:induction false} ProcessCellsUpdate(apply: Chain, rules: seq<CellRule>, row: Row, column: nat, k: nat, cell: Cell)
    requires |rules| == |row| && k < |row|
    requires apply(rules[k], column + k, cell) == apply(rules[k], column + k, row[k])
    ensures ProcessCells(apply, rules, row[k := cell], column) == ProcessCells(apply, rules, row, column)
    decreases |row|
  {
    var row' := row[k := cell];
    if k == 0 {
      assert row'[1..] == row[1..];
      ProcessCellsHead(apply, rules, row', row, column);
    } else {
      assert row'[1..] == row[1..][k - 1 := cell];
      assert rules[1..][k - 1] == rules[k] && column + 1 + (k - 1) == column + k;
      ProcessCellsUpdate(apply, rules[1..], row[1..], column + 1, k - 1, cell);
      ProcessCellsTail(apply, rules, row', row, column);
    }
  }

  // ---------------------------------------------------------------------------
  // Bean population (CsvBeanReader.populateBean): a null result leaves the setter
  // uncalled, so the field keeps Java's default value.
  // ---------------------------------------------------------------------------

  /** An int field: the Integer handed over, or the default 0. */
  function IntField(v: Option<Value>): int32 {
    match v
    case Some(IntValue(n)) => n
    case _ => 0
  }

  /** A double field: the Double handed over, or the default 0.0. */
  function DoubleField(v: Option<Value>): real {
    match v
    case Some(DoubleValue(d)) => d
    case _ => 0.0
  }

  /** A String field that a NotNull rule always fills. */
  function TextField(v: Option<Value>): string {
    match v
    case Some(StringValue(s)) => s
    case _ => ""
  }

  /** A String field: the String handed over, or the default null. */
  function StringField(v: Option<Value>): Option<string> {
    match v
    case Some(StringValue(s)) => Some(s)
    case _ => None
  }
}
