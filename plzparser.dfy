/**
 * PlzParser: the five-column postal code file (PLZ.tab) read into PlzTabBean records.
 * Every column is required, nothing is trimmed, and there is no header line. The file
 * carries longitude before latitude.
 */
module PlzParser {
  import opened Wrappers
  import opened JavaText
  import opened CellProcessors
  import TabSeparatedBeanReader

  /** PlzTabBean: one line of the postal code file; its String fields are never null. */
  datatype PlzTabBean = PlzTabBean(id: int32, plz: string, lon: real, lat: real, placeName: string)

  /**
   * PlzTabBean.equals: compares id, lat, lon, placeName and plz, the doubles by their bits
   * (here reals, so -0.0 and 0.0 are not told apart). Two beans are equal exactly when
   * they are the same record.
   */
  function Equals(a: PlzTabBean, b: PlzTabBean): (r: bool)
    ensures r <==> a == b
  {
    a.id == b.id && a.lat == b.lat && a.lon == b.lon && a.placeName == b.placeName && a.plz == b.plz
  }

  /** The column names, in file order: longitude comes before latitude. */
  const Headers: seq<string> := ["id", "plz", "lon", "lat", "placeName"]

  /** getProcessors: NotNull(new ParseInt()), NotNull(), two NotNull(new ParseDouble()), NotNull(). */
  const Rules: seq<CellRule> := [
    CellRule(true, false, ToInt),    // id
    CellRule(true, false, Verbatim), // plz
    CellRule(true, false, ToDouble), // lon
    CellRule(true, false, ToDouble), // lat
    CellRule(true, false, Verbatim)  // placeName
  ]

  /** populateBean: each processed column goes to the property its header names. */
  function BeanOf(cols: seq<Option<Value>>): PlzTabBean
    requires |cols| == |Headers|
  {
    PlzTabBean(
      id := IntField(cols[0]),
      plz := TextField(cols[1]),
      lon := DoubleField(cols[2]),
      lat := DoubleField(cols[3]),
      placeName := TextField(cols[4]))
  }

  /** One row through the rule table and into a bean, or the exception that drops it. */
  function ParseRow(row: Row): Result<PlzTabBean, CellError> {
    match ProcessRow(Rules, row)
    case Err(e) => Err(e)
    case Ok(cols) => Ok(BeanOf(cols))
  }

  /** PlzParser.readDataFromStream: the first line is data like every other. */
  method ReadDataFromStream(stream: seq<Row>) returns (beans: seq<PlzTabBean>)
    ensures beans == TabSeparatedBeanReader.Surviving(ParseRow, stream)
    ensures forall b :: b in beans <==> exists k :: 0 <= k < |stream| && ParseRow(stream[k]) == Ok(b)
  {
    beans := TabSeparatedBeanReader.ReadDataFromStream(ParseRow, stream, false);
    forall b ensures b in beans <==> exists k :: 0 <= k < |stream| && ParseRow(stream[k]) == Ok(b) {
      TabSeparatedBeanReader.UnheaderedMembers(ParseRow, stream, b);
    }
  }

  // ---------------------------------------------------------------------------
  // What a row must hold, and what each field of the bean then is
  // ---------------------------------------------------------------------------

  /**
   * A row is accepted exactly when it has five cells, none of them empty, its id reads
   * as an int as it stands, and its longitude and latitude read as doubles.
   */
  lemma ParseRowAccepts(row: Row)
    ensures ParseRow(row).Ok? <==>
      && |row| == 5
      && (forall k :: 0 <= k < 5 ==> row[k].Some?)
      && ParseInt(row[0].value).Some?
      && ParseDouble(row[2].value).Some? && ParseDouble(row[3].value).Some?
  {
    ProcessRowOk(Rules, row);
    if |row| == 5 && ParseRow(row).Err? {
      var k :| 0 <= k < 5 && !ApplyRule(Rules[k], k, row[k]).Ok?;
      if row[k].Some? {
        assert k in {0, 2, 3};
        if k != 0 {
          ConvertDouble(k, row[k].value);
        }
      }
    }
    if ParseRow(row).Ok? {
      ConvertDouble(2, row[2].value);
      ConvertDouble(3, row[3].value);
    }
  }

  /** Any empty cell rejects the row: every column is NotNull. */
  lemma EmptyCellRejected(row: Row, k: nat)
    requires |row| == 5 && k < 5 && row[k].None?
    ensures ParseRow(row).Err?
  {
    ParseRowAccepts(row);
  }

  /** The id is not trimmed: an id with a blank at either end rejects the row. */
  lemma PaddedIdRejected(row: Row)
    requires |row| == 5 && row[0].Some? && row[0].value != []
    requires IsTrimmable(row[0].value[0]) || IsTrimmable(row[0].value[|row[0].value| - 1])
    ensures ParseRow(row).Err?
  {
    ParseIntRejectsBlank(row[0].value);
    ParseRowAccepts(row);
  }

  /** What an accepted required double cell hands to the bean. */
  lemma DoubleCellValue(column: nat, cell: Cell, v: Option<Value>)
    requires ApplyRule(CellRule(true, false, ToDouble), column, cell) == Ok(v)
    ensures cell.Some? && ParseDouble(cell.value) == Some(DoubleField(v))
  {
    ConvertDouble(column, cell.value);
  }

  /**
   * The fields of an accepted row: the id is the first cell read as an int, plz and
   * placeName are the second and fifth cells verbatim, lon is the third cell and lat the
   * fourth, each read as a double.
   */
  lemma ParseRowFields(row: Row)
    requires ParseRow(row).Ok?
    ensures var b := ParseRow(row).value;
      && |row| == 5 && (forall k :: 0 <= k < 5 ==> row[k].Some?)
      && ParseInt(row[0].value) == Some(b.id)
      && b.plz == row[1].value
      && ParseDouble(row[2].value) == Some(b.lon)
      && ParseDouble(row[3].value) == Some(b.lat)
      && b.placeName == row[4].value
  {
    ProcessRowOk(Rules, row);
    var vs := ProcessRow(Rules, row).value;
    DoubleCellValue(2, row[2], vs[2]);
    DoubleCellValue(3, row[3], vs[3]);
  }

  /** Double.valueOf trims by itself, so blanks around the coordinates of an accepted row do not matter. */
  lemma PaddedCoordinatesRead(row: Row, k: nat, padded: string)
    requires |row| == 5 && k in {2, 3} && row[k].Some? && ParseRow(row).Ok?
    requires Trim(padded) == Trim(row[k].value)
    ensures ParseRow(row[k := Some(padded)]) == ParseRow(row)
  {
    ParseRowFields(row);
    ParseDoubleIgnoresTrim(padded);
    ParseDoubleIgnoresTrim(row[k].value);
    assert Rules[k] == CellRule(true, false, ToDouble);
    ConvertDouble(k, padded);
    ConvertDouble(k, row[k].value);
    assert ApplyRule(Rules[k], k, Some(padded)) == ApplyRule(Rules[k], k, row[k]);
    ParseRowUpdate(row, k, Some(padded));
  }

  /** A row reads the same after replacing a cell by one its column's chain treats alike. */
  lemma ParseRowUpdate(row: Row, k: nat, cell: Cell)
    requires |row| == 5 && k < 5 && ApplyRule(Rules[k], k, cell) == ApplyRule(Rules[k], k, row[k])
    ensures ParseRow(row[k := cell]) == ParseRow(row)
  {
    ProcessCellsUpdate(ApplyRule, Rules, row, 0, k, cell);
  }

  /** A row carrying the values of a bean, as PLZ.tab writes them. */
  function RowOf(b: PlzTabBean, lon: string, lat: string): Row {
    [Some(ShowInt(b.id)), Some(b.plz), Some(lon), Some(lat), Some(b.placeName)]
  }

  /** A row built from a bean, with coordinates that read as the bean's, reads back as that bean. */
  lemma RowOfReadsBack(b: PlzTabBean, lon: string, lat: string)
    requires ParseDouble(lon) == Some(b.lon) && ParseDouble(lat) == Some(b.lat)
    ensures ParseRow(RowOf(b, lon, lat)) == Ok(b)
  {
    var row := RowOf(b, lon, lat);
    assert ParseInt(row[0].value) == Some(b.id) by {
      ParseShowInt(b.id);
    }
    ParseRowAccepts(row);
    ParseRowFields(row);
  }
}
