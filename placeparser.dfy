/**
 * PlaceParser: the 16-column place file (DE.tab) read into PlaceBean records. Only the
 * id column is required; every other column is optional, numeric ones are trimmed
 * before parsing, and the first line of the file is a header.
 */
module PlaceParser {
  import opened Wrappers
  import opened JavaText
  import opened CellProcessors
  import TabSeparatedBeanReader

  /** PlaceBean: one line of the place file. A String field left null is `None`. */
  datatype PlaceBean = PlaceBean(
    id: int32,
    ags: Option<string>,
    ascii: Option<string>,
    name: Option<string>,
    lat: real,
    lon: real,
    amt: Option<string>,
    plzs: Option<string>,
    vorwahl: Option<string>,
    einwohner: int32,
    flaeche: real,
    kz: Option<string>,
    typ: Option<string>,
    level: int32,
    of: int32,
    invalid: Option<string>)

  /**
   * PlaceBean.equals: compares the 16 fields one by one (Strings null-safely, doubles by
   * their bits, which here are reals, so -0.0 and 0.0 are not told apart). Two beans are
   * equal exactly when they are the same record.
   */
  function Equals(a: PlaceBean, b: PlaceBean): (r: bool)
    ensures r <==> a == b
  {
    && a.ags == b.ags && a.amt == b.amt && a.ascii == b.ascii && a.einwohner == b.einwohner
    && a.flaeche == b.flaeche && a.id == b.id && a.invalid == b.invalid && a.kz == b.kz
    && a.lat == b.lat && a.level == b.level && a.lon == b.lon && a.name == b.name
    && a.of == b.of && a.plzs == b.plzs && a.typ == b.typ && a.vorwahl == b.vorwahl
  }

  /** The column names, in file order; column k fills the bean property Headers[k]. */
  const Headers: seq<string> := ["id", "ags", "ascii", "name", "lat", "lon", "amt", "plzs",
    "vorwahl", "einwohner", "flaeche", "kz", "typ", "level", "of", "invalid"]

  /** Optional(): the cell, verbatim or null. */
  const OptionalText := CellRule(false, false, Verbatim)
  /** Optional(new Trim(new ParseInt())). */
  const OptionalInt := CellRule(false, true, ToInt)
  /** Optional(new Trim(new ParseDouble())). */
  const OptionalDouble := CellRule(false, true, ToDouble)

  /** getCellProcessors, column by column; id is NotNull(new Trim(new ParseInt())). */
  const Rules: seq<CellRule> := [
    CellRule(true, true, ToInt), // id
    OptionalText,   // ags
    OptionalText,   // ascii
    OptionalText,   // name
    OptionalDouble, // lat
    OptionalDouble, // lon
    OptionalText,   // amt
    OptionalText,   // plzs
    OptionalText,   // vorwahl
    OptionalInt,    // einwohner
    OptionalDouble, // flaeche
    OptionalText,   // kz
    OptionalText,   // typ
    OptionalInt,    // level
    OptionalInt,    // of
    OptionalText    // invalid
  ]

  /** populateBean: each processed column goes to the property its header names. */
  function BeanOf(cols: seq<Option<Value>>): PlaceBean
    requires |cols| == |Headers|
  {
    PlaceBean(
      id := IntField(cols[0]),
      ags := StringField(cols[1]),
      ascii := StringField(cols[2]),
      name := StringField(cols[3]),
      lat := DoubleField(cols[4]),
      lon := DoubleField(cols[5]),
      amt := StringField(cols[6]),
      plzs := StringField(cols[7]),
      vorwahl := StringField(cols[8]),
      einwohner := IntField(cols[9]),
      flaeche := DoubleField(cols[10]),
      kz := StringField(cols[11]),
      typ := StringField(cols[12]),
      level := IntField(cols[13]),
      of := IntField(cols[14]),
      invalid := StringField(cols[15]))
  }

  /** One row through the rule table and into a bean, or the exception that drops it. */
  function ParseRow(row: Row): Result<PlaceBean, CellError> {
    match ProcessRow(Rules, row)
    case Err(e) => Err(e)
    case Ok(cols) => Ok(BeanOf(cols))
  }

  /** PlaceParser.readDataFromStream: the first line is always a header. */
  method ReadDataFromStream(stream: seq<Row>) returns (beans: seq<PlaceBean>)
    ensures beans == TabSeparatedBeanReader.Surviving(ParseRow, TabSeparatedBeanReader.DataRows(stream, true))
    ensures forall b :: b in beans <==> exists k :: 1 <= k < |stream| && ParseRow(stream[k]) == Ok(b)
  {
    beans := TabSeparatedBeanReader.ReadDataFromStream(ParseRow, stream, true);
    forall b ensures b in beans <==> exists k :: 1 <= k < |stream| && ParseRow(stream[k]) == Ok(b) {
      TabSeparatedBeanReader.HeaderedMembers(ParseRow, stream, b);
    }
  }

  // ---------------------------------------------------------------------------
  // What a row must hold, and what each field of the bean then is
  // ---------------------------------------------------------------------------

  /** An optional int cell is acceptable when absent, or when its trimmed text is an int. */
  predicate IntCellOk(cell: Cell) {
    cell.None? || ParseInt(Trim(cell.value)).Some?
  }

  /** An optional double cell is acceptable when absent, or when its trimmed text is a double. */
  predicate DoubleCellOk(cell: Cell) {
    cell.None? || ParseDouble(Trim(cell.value)).Some?
  }

  /** An int field holds the parsed trimmed cell, or 0 when the cell is absent. */
  predicate IntFrom(cell: Cell, n: int32) {
    match cell
    case None => n == 0
    case Some(s) => ParseInt(Trim(s)) == Some(n)
  }

  /** A double field holds the parsed trimmed cell, or 0.0 when the cell is absent. */
  predicate DoubleFrom(cell: Cell, d: real) {
    match cell
    case None => d == 0.0
    case Some(s) => ParseDouble(Trim(s)) == Some(d)
  }

  /**
   * A row is accepted exactly when it has 16 cells, its id is present and its trimmed
   * text is an int, and every present numeric cell parses after trimming. A present but
   * malformed optional number rejects the row instead of defaulting the field.
   */
  lemma ParseRowAccepts(row: Row)
    ensures ParseRow(row).Ok? <==>
      && |row| == 16
      && row[0].Some? && ParseInt(Trim(row[0].value)).Some?
      && DoubleCellOk(row[4]) && DoubleCellOk(row[5]) && IntCellOk(row[9])
      && DoubleCellOk(row[10]) && IntCellOk(row[13]) && IntCellOk(row[14])
  {
    ProcessRowOk(Rules, row);
    if |row| == 16 && ParseRow(row).Err? {
      var k :| 0 <= k < 16 && !ApplyRule(Rules[k], k, row[k]).Ok?;
      assert k in {0, 4, 5, 9, 10, 13, 14};
    }
  }

  /** A missing id rejects the row. */
  lemma MissingIdRejected(row: Row)
    requires |row| == 16 && row[0].None?
    ensures ParseRow(row) == Err(NullCell(0))
  {
    FirstCellFails(Rules, row);
  }

  /** An id whose trimmed text is not an int rejects the row. */
  lemma MalformedIdRejected(row: Row)
    requires |row| == 16 && row[0].Some? && ParseInt(Trim(row[0].value)).None?
    ensures ParseRow(row) == Err(NotAnInt(0, Trim(row[0].value)))
  {
    FirstCellFails(Rules, row);
  }

  /** What an accepted id cell hands to the bean. */
  lemma IdValue(cell: Cell, v: Option<Value>)
    requires ApplyRule(Rules[0], 0, cell) == Ok(v)
    ensures cell.Some? && ParseInt(Trim(cell.value)) == Some(IntField(v))
  {
  }

  /** What an accepted Optional() cell hands to the bean: the cell itself. */
  lemma TextCellValue(column: nat, cell: Cell, v: Option<Value>)
    requires ApplyRule(OptionalText, column, cell) == Ok(v)
    ensures StringField(v) == cell
  {
  }

  /** What an accepted optional int cell hands to the bean. */
  lemma IntCellValue(column: nat, cell: Cell, v: Option<Value>)
    requires ApplyRule(OptionalInt, column, cell) == Ok(v)
    ensures IntFrom(cell, IntField(v))
  {
  }

  /** What an accepted optional double cell hands to the bean. */
  lemma DoubleCellValue(column: nat, cell: Cell, v: Option<Value>)
    requires ApplyRule(OptionalDouble, column, cell) == Ok(v)
    ensures DoubleFrom(cell, DoubleField(v))
  {
    if cell.Some? {
      ConvertDouble(column, Trim(cell.value));
    }
  }

  /**
   * The fields of an accepted row: the id is the trimmed and parsed first cell; the nine
   * String fields are their cells verbatim (null when absent, never trimmed); the six
   * optional numbers are their trimmed and parsed cells, or 0 / 0.0 when absent.
   */
  lemma ParseRowFields(row: Row)
    requires ParseRow(row).Ok?
    ensures var b := ParseRow(row).value;
      && |row| == 16
      && row[0].Some? && ParseInt(Trim(row[0].value)) == Some(b.id)
      && b.ags == row[1] && b.ascii == row[2] && b.name == row[3] && b.amt == row[6]
      && b.plzs == row[7] && b.vorwahl == row[8] && b.kz == row[11] && b.typ == row[12]
      && b.invalid == row[15]
      && DoubleFrom(row[4], b.lat) && DoubleFrom(row[5], b.lon) && IntFrom(row[9], b.einwohner)
      && DoubleFrom(row[10], b.flaeche) && IntFrom(row[13], b.level) && IntFrom(row[14], b.of)
  {
    ProcessRowOk(Rules, row);
    var vs := ProcessRow(Rules, row).value;
    IdValue(row[0], vs[0]);
    TextCellValue(1, row[1], vs[1]);
    TextCellValue(2, row[2], vs[2]);
    TextCellValue(3, row[3], vs[3]);
    DoubleCellValue(4, row[4], vs[4]);
    DoubleCellValue(5, row[5], vs[5]);
    TextCellValue(6, row[6], vs[6]);
    TextCellValue(7, row[7], vs[7]);
    TextCellValue(8, row[8], vs[8]);
    IntCellValue(9, row[9], vs[9]);
    DoubleCellValue(10, row[10], vs[10]);
    TextCellValue(11, row[11], vs[11]);
    TextCellValue(12, row[12], vs[12]);
    IntCellValue(13, row[13], vs[13]);
    IntCellValue(14, row[14], vs[14]);
    TextCellValue(15, row[15], vs[15]);
  }

  /** The chains of the numeric columns all trim, so they see cells that trim alike as the same. */
  lemma NumericColumnTrims(k: nat, a: string, b: string)
    requires k in {0, 4, 5, 9, 10, 13, 14} && Trim(a) == Trim(b)
    ensures k < |Rules| && ApplyRule(Rules[k], k, Some(a)) == ApplyRule(Rules[k], k, Some(b))
  {
    assert Rules[k].trim;
    ApplyRuleTrimmed(Rules[k], k, a, b);
  }

  /** A row reads the same after replacing a cell by one its column's chain treats alike. */
  lemma ParseRowUpdate(row: Row, k: nat, cell: Cell)
    requires |row| == 16 && k < 16 && ApplyRule(Rules[k], k, cell) == ApplyRule(Rules[k], k, row[k])
    ensures ParseRow(row[k := cell]) == ParseRow(row)
  {
    ProcessCellsUpdate(ApplyRule, Rules, row, 0, k, cell);
  }

  /** Blanks around a numeric cell do not matter: the padded row reads as the bare one. */
  lemma NumericCellsTrimmed(row: Row, k: nat, padded: string)
    requires |row| == 16 && k in {0, 4, 5, 9, 10, 13, 14} && row[k].Some?
    requires Trim(padded) == Trim(row[k].value)
    ensures ParseRow(row[k := Some(padded)]) == ParseRow(row)
  {
    NumericColumnTrims(k, padded, row[k].value);
    ParseRowUpdate(row, k, Some(padded));
  }
}
