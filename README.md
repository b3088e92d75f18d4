# opengeodb2neo4j importer, modelled in Dafny

This project models the record-to-graph pipeline of the OpenGeoDB importer, which loads
Germany's OpenGeoDB place file (`DE.tab`) and postal code file (`PLZ.tab`) into a Neo4j
graph. It then proves properties of that model. The pipeline runs in this order:

1. **Tolerant row reader** (`TabSeparatedBeanReader`). It reads the rows of a
   tab-separated file into beans. A flag decides whether the first line is a header.
   A row whose conversion raises is dropped and reading carries on.
2. **Column rules.** `PlaceParser` builds 16-column `PlaceBean`s: only the id is
   required, and numeric columns are trimmed. `PlzParser` builds 5-column
   `PlzTabBean`s: every column is required, nothing is trimmed, and longitude comes
   before latitude.
3. **Node mappers.** `PlaceNodeMapper` creates one node per place. It always sets the id,
   sets a String property only when the field is non-null and any other number only
   when it is strictly positive, and adds the place's type as a label. `PlzNodeMapper` creates one node per
   postal code and sets all five properties.
4. **Relationship builder** (`PlaceRelationshipBuilder`). It adds `PART_OF` from a place
   to its parent, and `POSTAL_CODE_FOR` from each postal code listed in `plzs` to the
   place. It resolves each reference through the two node caches and skips any that
   miss.
5. **The importer** (`Importer`). It runs three phases in order, each in its own
   transaction: place nodes, postal code nodes, relationships. The two node phases fill
   the caches `placeNodeMap` and `plzNodeMap`. A phase that raises is rolled back and
   logged, and the next phase runs anyway.

Layout, one module per source class plus the library behaviour they rely on:

| file | module | models |
|---|---|---|
| `wrappers.dfy` | `Wrappers` | `Option` and `Result` |
| `javatext.dfy` | `JavaText` | `String.trim`, `Integer.valueOf`/`toString`, the plain-decimal part of `Double.valueOf`, `String.split(",")` |
| `cellprocessors.dfy` | `CellProcessors` | SuperCSV's `NotNull`/`Optional`/`Trim`/`ParseInt`/`ParseDouble` chains and bean population |
| `beanreader.dfy` | `TabSeparatedBeanReader` | `readDataFromStream` |
| `placeparser.dfy`, `plzparser.dfy` | `PlaceParser`, `PlzParser` | the beans, their `equals`, the headers and rule tables, `readDataFromStream` |
| `opengeodbproperties.dfy` | `OpenGeoDbProperties` | the labels and property keys |
| `graphstore.dfy` | `GraphStore` | the graph store as a `class Store`: nodes, relationships, lookup, rollback |
| `placenodemapper.dfy`, `plznodemapper.dfy` | `PlaceNodeMapper`, `PlzNodeMapper` | `createPlaceNode`, `createPlzNode` |
| `placerelationshipbuilder.dfy` | `PlaceRelationshipBuilder` | the three builder methods |
| `keyednodes.dfy` | `KeyedNodes` | the identity maps filled by `put` and the nodes numbered by creation |
| `importer.dfy` | `Importer` | `class Importer`: the three phases, `doInTransaction`, `doImport` |

The store, the mappers, the builder and the importer are imperative: a `class Store` and
a `class Importer` whose methods change their fields. Each such method is proved against
a specification function. These are `PlaceNodeOf`, `PlzNodeOf`, `PlaceLinks`, `Numbered`,
`KeyMap` and `LivePrefix`, and for a whole run `Transaction`, `Run` and `Import`. The
lemmas about those functions state what the importer promises.

The store's own failures are an input. `Fault` gives the bean at which the store raises
during a node phase. In the linking phase the store raises when a relationship has an
end that is not a live node, for example a node created by a phase that was rolled
back. Node handles are never reused.

## Model

| member | source | states |
|---|---|---|
| `TabSeparatedBeanReader.ReadDataFromStream` | src/main/java/info/jejking/opengeodb/neo4j/importer/TabSeparatedBeanReader.java:77-103 | the read loop returns exactly the beans of the data rows that convert, in input order, skipping every row that raises; it ends at the end of input |
| `TabSeparatedBeanReader.HeaderedMembers` | src/main/java/info/jejking/opengeodb/neo4j/importer/TabSeparatedBeanReader.java:82-94 | flag set: a bean is returned exactly when some line after the first converts to it |
| `TabSeparatedBeanReader.UnheaderedMembers` | src/main/java/info/jejking/opengeodb/neo4j/importer/TabSeparatedBeanReader.java:86-94 | flag clear: a bean is returned exactly when some line, the first included, converts to it |
| `TabSeparatedBeanReader.SurvivingLength` | src/main/java/info/jejking/opengeodb/neo4j/importer/TabSeparatedBeanReader.java:86-94 | at most one bean per data row |
| `TabSeparatedBeanReader.SurvivingAppend` | src/main/java/info/jejking/opengeodb/neo4j/importer/TabSeparatedBeanReader.java:87-100 | reading two stretches of rows one after the other yields their beans one after the other |
| `TabSeparatedBeanReader.SurvivingMembers` | src/main/java/info/jejking/opengeodb/neo4j/importer/TabSeparatedBeanReader.java:89-98 | every returned bean comes from a row that converts to it, and every such row contributes its bean |
| `TabSeparatedBeanReader.SurvivingAllOk` | src/main/java/info/jejking/opengeodb/neo4j/importer/TabSeparatedBeanReader.java:89-91 | when every row converts there is one bean per row and the k-th bean is the k-th row's |
| `TabSeparatedBeanReader.SurvivingSkipsBadRow` | src/main/java/info/jejking/opengeodb/neo4j/importer/TabSeparatedBeanReader.java:95-98 | a row that raises contributes nothing and reading carries on with the rows after it |
| `TabSeparatedBeanReader.SurvivingOne` | src/main/java/info/jejking/opengeodb/neo4j/importer/TabSeparatedBeanReader.java:89-98 | a single row yields its whole bean or nothing: no partial bean is ever appended |
| `TabSeparatedBeanReader.OneBadRowAmongGood` | src/main/java/info/jejking/opengeodb/neo4j/importer/TabSeparatedBeanReader.java:95-98 | one bad row among N good rows yields N beans |
| `TabSeparatedBeanReader.HeaderLineIgnored` | src/main/java/info/jejking/opengeodb/neo4j/importer/TabSeparatedBeanReader.java:82-84 | with the flag set the first line never yields a bean, whatever it holds |
| `TabSeparatedBeanReader.FirstLineIsData` | src/main/java/info/jejking/opengeodb/neo4j/importer/TabSeparatedBeanReader.java:82-91 | with the flag clear a first line that converts yields the first bean |
| `CellProcessors.ApplyRule` | src/main/java/info/jejking/opengeodb/neo4j/importer/PlaceParser.java:488-503 | an empty cell passes an Optional chain as no value and fails a NotNull chain; a present cell that passes yields a value |
| `CellProcessors.ProcessRow` | src/main/java/info/jejking/opengeodb/neo4j/importer/PlaceParser.java:481-505 | a processed row has one value per rule; a row of another width is rejected |
| `CellProcessors.ProcessCells` | src/main/java/info/jejking/opengeodb/neo4j/importer/TabSeparatedBeanReader.java:89 | a successful run of the column chains yields one value per column |
| `CellProcessors.ProcessCellsOk` | src/main/java/info/jejking/opengeodb/neo4j/importer/TabSeparatedBeanReader.java:89 | the column chains succeed on a row exactly when each column's chain succeeds on its cell, and the values keep column order |
| `CellProcessors.ProcessRowOk` | src/main/java/info/jejking/opengeodb/neo4j/importer/TabSeparatedBeanReader.java:89 | a row is accepted exactly when it has one cell per rule and every cell passes its rule, each value being that cell's |
| `CellProcessors.ConvertDouble` | src/main/java/info/jejking/opengeodb/neo4j/importer/PlaceParser.java:492-493 | a ParseDouble step succeeds exactly when the text reads as a double, and yields that double |
| `CellProcessors.ApplyRuleTrimmed` | src/main/java/info/jejking/opengeodb/neo4j/importer/PlaceParser.java:492-502 | a chain with Trim treats two cells alike when they trim to the same text |
| `CellProcessors.FirstCellFails` | src/main/java/info/jejking/opengeodb/neo4j/importer/PlaceParser.java:488 | a row whose first column fails is rejected with that column's exception, whatever the other cells hold |
| `CellProcessors.ProcessCellsHead` | src/main/java/info/jejking/opengeodb/neo4j/importer/TabSeparatedBeanReader.java:89 | the first cell matters only through its chain's result |
| `CellProcessors.ProcessCellsTail` | src/main/java/info/jejking/opengeodb/neo4j/importer/TabSeparatedBeanReader.java:89 | the later cells matter only through their chains' result |
| `CellProcessors.ProcessCellsUpdate` | src/main/java/info/jejking/opengeodb/neo4j/importer/TabSeparatedBeanReader.java:89 | replacing one cell by another that its column's chain treats the same way leaves the row's result unchanged |
| `JavaText.TrimStartShape` | src/main/java/info/jejking/opengeodb/neo4j/importer/PlaceRelationshipBuilder.java:81 | the leading part String.trim removes is exactly the run of characters up to U+0020 before the first other character |
| `JavaText.TrimEndShape` | src/main/java/info/jejking/opengeodb/neo4j/importer/PlaceRelationshipBuilder.java:81 | the trailing part String.trim removes is exactly the run of characters up to U+0020 after the last other character |
| `JavaText.TrimShape` | src/main/java/info/jejking/opengeodb/neo4j/importer/PlaceRelationshipBuilder.java:81 | String.trim keeps a contiguous part of the text and drops only characters up to U+0020 on either side of it |
| `JavaText.TrimEnds` | src/main/java/info/jejking/opengeodb/neo4j/importer/PlaceRelationshipBuilder.java:81 | a trimmed text neither starts nor ends with a character up to U+0020 |
| `JavaText.TrimUnchanged` | src/main/java/info/jejking/opengeodb/neo4j/importer/PlaceRelationshipBuilder.java:81 | a text that neither starts nor ends with such a character is left unchanged |
| `JavaText.TrimIdempotent` | src/main/java/info/jejking/opengeodb/neo4j/importer/PlaceRelationshipBuilder.java:81 | trimming twice is trimming once |
| `JavaText.DigitChar` | src/main/java/info/jejking/opengeodb/neo4j/importer/PlaceParser.java:488 | the digit character for a value below ten has that value |
| `JavaText.ShowNatValue` | src/main/java/info/jejking/opengeodb/neo4j/importer/PlaceParser.java:488 | the decimal rendering of a number is all digits and reads back as that number |
| `JavaText.ParseShowInt` | src/main/java/info/jejking/opengeodb/neo4j/importer/PlaceParser.java:488 | Integer.valueOf of Integer.toString(n) is n, for every 32-bit int |
| `JavaText.ParseIntAccepts` | src/main/java/info/jejking/opengeodb/neo4j/importer/PlzParser.java:187 | Integer.valueOf accepts only an optional sign followed by at least one digit |
| `JavaText.ParseIntRejectsBlank` | src/main/java/info/jejking/opengeodb/neo4j/importer/PlzParser.java:187 | Integer.valueOf does not trim: text with a blank at either end is rejected |
| `JavaText.IndexOf` | src/main/java/info/jejking/opengeodb/neo4j/importer/PlaceParser.java:492 | the position found holds the character and no earlier position does |
| `JavaText.ParseDoubleIgnoresTrim` | src/main/java/info/jejking/opengeodb/neo4j/importer/PlzParser.java:189-190 | Double.valueOf trims its argument, so trimming first makes no difference |
| `JavaText.ParseDoubleOfDigits` | src/main/java/info/jejking/opengeodb/neo4j/importer/PlaceParser.java:498 | a digit string reads as a double of the same value |
| `JavaText.ParseDoubleUnsigned` | src/main/java/info/jejking/opengeodb/neo4j/importer/PlaceParser.java:492-493 | text starting with a digit and ending in a visible character reads as its plain decimal value |
| `JavaText.ParseDecimalPoint` | src/main/java/info/jejking/opengeodb/neo4j/importer/PlaceParser.java:492-493 | digits, a point and digits read as whole part plus fraction |
| `JavaText.ParseDecimalWhole` | src/main/java/info/jejking/opengeodb/neo4j/importer/PlaceParser.java:492-493 | digits alone read as a number without fraction |
| `JavaText.ParseDoubleDecimal` | src/main/java/info/jejking/opengeodb/neo4j/importer/PlaceParser.java:492-493 | a coordinate written as digits, a point and digits reads as whole part plus fraction |
| `JavaText.JoinPieces` | src/main/java/info/jejking/opengeodb/neo4j/importer/PlaceRelationshipBuilder.java:79 | joining the pieces with the separator gives back the text, and no piece holds a separator |
| `JavaText.DropTrailingEmpty` | src/main/java/info/jejking/opengeodb/neo4j/importer/PlaceRelationshipBuilder.java:79 | exactly the trailing empty pieces are removed and the rest is kept in order, as String.split with limit 0 does |
| `JavaText.SplitPieces` | src/main/java/info/jejking/opengeodb/neo4j/importer/PlaceRelationshipBuilder.java:79 | String.split gives the text itself when the separator is absent, and otherwise all pieces in order up to the trailing empty ones |
| `JavaText.PiecesWithoutSep` | src/main/java/info/jejking/opengeodb/neo4j/importer/PlaceRelationshipBuilder.java:79 | a text without the separator is a single piece |
| `PlaceParser.Equals` | src/main/java/info/jejking/opengeodb/neo4j/importer/PlaceParser.java:364-460 | PlaceBean.equals holds exactly when the two beans agree on all 16 fields |
| `PlaceParser.ReadDataFromStream` | src/main/java/info/jejking/opengeodb/neo4j/importer/PlaceParser.java:516-519 | the place file is read with its first line as a header: a bean is returned exactly when some later line parses to it, in input order |
| `PlaceParser.ParseRowAccepts` | src/main/java/info/jejking/opengeodb/neo4j/importer/PlaceParser.java:481-505 | a row is accepted exactly when it has 16 cells, its id is present and its trimmed text is an int, and every present numeric cell trims to a valid number |
| `PlaceParser.MissingIdRejected` | src/main/java/info/jejking/opengeodb/neo4j/importer/PlaceParser.java:488 | a row with an empty id cell is rejected |
| `PlaceParser.MalformedIdRejected` | src/main/java/info/jejking/opengeodb/neo4j/importer/PlaceParser.java:488 | a row whose trimmed id is not an int is rejected |
| `PlaceParser.IdValue` | src/main/java/info/jejking/opengeodb/neo4j/importer/PlaceParser.java:488 | an accepted id is the int its trimmed cell reads as |
| `PlaceParser.TextCellValue` | src/main/java/info/jejking/opengeodb/neo4j/importer/PlaceParser.java:489-491 | an Optional() column hands its cell over verbatim, untrimmed, and an empty cell as null |
| `PlaceParser.IntCellValue` | src/main/java/info/jejking/opengeodb/neo4j/importer/PlaceParser.java:497 | an optional int column holds the int of its trimmed cell, or 0 when the cell is empty |
| `PlaceParser.DoubleCellValue` | src/main/java/info/jejking/opengeodb/neo4j/importer/PlaceParser.java:492-493 | an optional double column holds the double of its trimmed cell, or 0.0 when the cell is empty |
| `PlaceParser.ParseRowFields` | src/main/java/info/jejking/opengeodb/neo4j/importer/PlaceParser.java:478-503 | in an accepted row each of the 16 columns lands in its own field, in the order id, ags, ascii, name, lat, lon, amt, plzs, vorwahl, einwohner, flaeche, kz, typ, level, of, invalid |
| `PlaceParser.NumericColumnTrims` | src/main/java/info/jejking/opengeodb/neo4j/importer/PlaceParser.java:492-502 | every numeric column trims, so two cells that trim alike are treated alike |
| `PlaceParser.ParseRowUpdate` | src/main/java/info/jejking/opengeodb/neo4j/importer/PlaceParser.java:481-505 | replacing a cell by one its column treats alike leaves the parsed row unchanged |
| `PlaceParser.NumericCellsTrimmed` | src/main/java/info/jejking/opengeodb/neo4j/importer/PlaceParser.java:492-502 | blanks around a numeric cell do not change what the row parses to |
| `PlzParser.Equals` | src/main/java/info/jejking/opengeodb/neo4j/importer/PlzParser.java:129-166 | PlzTabBean.equals holds exactly when the two beans agree on all five fields |
| `PlzParser.ReadDataFromStream` | src/main/java/info/jejking/opengeodb/neo4j/importer/PlzParser.java:205-207 | the postal code file has no header: a bean is returned exactly when some line, the first included, parses to it, in input order |
| `PlzParser.ParseRowAccepts` | src/main/java/info/jejking/opengeodb/neo4j/importer/PlzParser.java:185-194 | a row is accepted exactly when it has five non-empty cells, its untrimmed id is an int, and its longitude and latitude read as doubles |
| `PlzParser.EmptyCellRejected` | src/main/java/info/jejking/opengeodb/neo4j/importer/PlzParser.java:186-192 | any empty cell rejects the row |
| `PlzParser.PaddedIdRejected` | src/main/java/info/jejking/opengeodb/neo4j/importer/PlzParser.java:187 | the id is not trimmed: a blank at either end of it rejects the row |
| `PlzParser.DoubleCellValue` | src/main/java/info/jejking/opengeodb/neo4j/importer/PlzParser.java:189-190 | an accepted coordinate is the double its cell reads as |
| `PlzParser.ParseRowFields` | src/main/java/info/jejking/opengeodb/neo4j/importer/PlzParser.java:181-192 | in an accepted row the columns are id, plz, lon, lat, placeName in that order; the postal code is kept as raw text, so leading zeros stay |
| `PlzParser.PaddedCoordinatesRead` | src/main/java/info/jejking/opengeodb/neo4j/importer/PlzParser.java:189-190 | blanks around the coordinates of an accepted row do not change what it parses to |
| `PlzParser.ParseRowUpdate` | src/main/java/info/jejking/opengeodb/neo4j/importer/PlzParser.java:185-194 | replacing a cell by one its column treats alike leaves the parsed row unchanged |
| `PlzParser.RowOfReadsBack` | src/test/java/info/jejking/opengeodb/neo4j/importer/PlzParserTest.java:52-72 | a row written from a bean, with coordinates that read as the bean's, parses back to that bean |
| `GraphStore.LivePrefixShape` | src/main/java/info/jejking/opengeodb/neo4j/importer/PlaceRelationshipBuilder.java:83 | the relationships a run of createRelationshipTo calls makes are a prefix of those tried, all with live ends; that prefix is the whole list exactly when every end is live |
| `GraphStore.EdgesLiveAppend` | src/main/java/info/jejking/opengeodb/neo4j/importer/PlaceRelationshipBuilder.java:53-54 | a list of relationships can all be made exactly when both of its parts can |
| `GraphStore.LivePrefixStops` | src/main/java/info/jejking/opengeodb/neo4j/importer/PlaceRelationshipBuilder.java:80-84 | a run stops at the first relationship with a dead end, after making the ones before it |
| `GraphStore.LivePrefixThen` | src/main/java/info/jejking/opengeodb/neo4j/importer/PlaceRelationshipBuilder.java:53-54 | after a list of calls that all succeed, the next list's calls continue the same run |
| `GraphStore.LivePrefixStopped` | src/main/java/info/jejking/opengeodb/neo4j/importer/PlaceRelationshipBuilder.java:53-54 | once a call raises, the calls after it are never made |
| `GraphStore.LivePrefixFails` | src/main/java/info/jejking/opengeodb/neo4j/importer/Importer.java:135-137 | a place whose linking raises ends the whole run: what was made is the earlier places' relationships plus its own live prefix |
| `GraphStore.LivePrefixOne` | src/main/java/info/jejking/opengeodb/neo4j/importer/PlaceRelationshipBuilder.java:112 | a single call makes its relationship exactly when both ends are live |
| `GraphStore.LivePrefixAfterLive` | src/main/java/info/jejking/opengeodb/neo4j/importer/Importer.java:135-137 | calls after a list that all succeeded are made as if the list were not there |
| `GraphStore.LivePrefixAfterDead` | src/main/java/info/jejking/opengeodb/neo4j/importer/Importer.java:135-137 | after a call that raised nothing more is made |
| `GraphStore.Store.constructor` | src/main/java/info/jejking/opengeodb/neo4j/importer/Importer.java:140-142 | a new store has no nodes and no relationships |
| `GraphStore.Store.CreateNode` | src/main/java/info/jejking/opengeodb/neo4j/importer/PlaceNodeMapper.java:43-45 | createNode adds one node with the given labels and no properties under a handle never used before, and changes nothing else |
| `GraphStore.Store.SetProperty` | src/main/java/info/jejking/opengeodb/neo4j/importer/PlaceNodeMapper.java:48 | setProperty sets or replaces one property of one node and changes nothing else |
| `GraphStore.Store.AddLabel` | src/main/java/info/jejking/opengeodb/neo4j/importer/PlaceNodeMapper.java:81 | addLabel adds one label to one node and changes nothing else |
| `GraphStore.Store.CreateRelationshipTo` | src/main/java/info/jejking/opengeodb/neo4j/importer/PlaceRelationshipBuilder.java:83 | createRelationshipTo appends one relationship exactly when both ends are live nodes, and otherwise raises and changes nothing |
| `GraphStore.Store.Rollback` | src/main/java/info/jejking/opengeodb/neo4j/importer/Importer.java:108-110 | a failed transaction puts the nodes and relationships back as they were; used handles are not handed out again |
| `KeyedNodes.KeyMapDomain` | src/main/java/info/jejking/opengeodb/neo4j/importer/Importer.java:117-121 | a key is in the identity map exactly when one of the beans processed has it |
| `KeyedNodes.KeyMapRange` | src/main/java/info/jejking/opengeodb/neo4j/importer/Importer.java:117-121 | every entry of the identity map names a node created in the phase, for a bean with that key |
| `KeyedNodes.KeyMapLastWins` | src/main/java/info/jejking/opengeodb/neo4j/importer/Importer.java:118-121 | HashMap.put, last write wins: the entry for a bean's key names that bean's node exactly when no later bean has the same key |
| `KeyedNodes.KeyMapShape` | src/main/java/info/jejking/opengeodb/neo4j/importer/Importer.java:117-121 | both facts above for all keys at once |
| `KeyedNodes.KeyMapCovers` | src/main/java/info/jejking/opengeodb/neo4j/importer/Importer.java:118-121 | every processed bean's key is in the map |
| `KeyedNodes.KeyMapInto` | src/main/java/info/jejking/opengeodb/neo4j/importer/Importer.java:118-121 | every entry names one of the handles created in the phase |
| `KeyedNodes.KeyMapSize` | src/main/java/info/jejking/opengeodb/neo4j/importer/Importer.java:118-121 | the map has at most one entry per bean, and exactly one when the keys are pairwise different |
| `KeyedNodes.NumberedShape` | src/main/java/info/jejking/opengeodb/neo4j/importer/Importer.java:118-119 | the nodes of a phase are exactly the handles it handed out, one per bean, and the k-th is the node of the k-th bean |
| `KeyedNodes.TwoPhasesShape` | src/main/java/info/jejking/opengeodb/neo4j/importer/Importer.java:70-86 | after the two node phases the live nodes are those of the phases that committed, each the node of its bean |
| `KeyedNodes.NumberedNext` | src/main/java/info/jejking/opengeodb/neo4j/importer/Importer.java:118-119 | creating the next bean's node extends the phase's nodes by that one node |
| `KeyedNodes.KeyMapNext` | src/main/java/info/jejking/opengeodb/neo4j/importer/Importer.java:120 | putting the next bean's key extends the map by that one entry |
| `KeyedNodes.ConcatSplit` | src/main/java/info/jejking/opengeodb/neo4j/importer/Importer.java:135-137 | the places can be linked in two runs: the relationships are those of each run, in order |
| `KeyedNodes.ConcatMembers` | src/main/java/info/jejking/opengeodb/neo4j/importer/Importer.java:135-137 | a relationship is planned for a run of places exactly when one of them plans it |
| `PlaceNodeMapper.SetIfPresent` | src/main/java/info/jejking/opengeodb/neo4j/importer/PlaceNodeMapper.java:49-57 | one guarded setProperty: the property is set exactly when the field has a value, and nothing else changes |
| `PlaceNodeMapper.SetTypeIfPresent` | src/main/java/info/jejking/opengeodb/neo4j/importer/PlaceNodeMapper.java:79-82 | a non-null typ sets the TYPE property and adds typ as a label; a null one changes nothing |
| `PlaceNodeMapper.CreatePlaceNode` | src/main/java/info/jejking/opengeodb/neo4j/importer/PlaceNodeMapper.java:42-90 | createPlaceNode creates exactly one new node under a fresh handle, holding the place's labels and properties, and no relationship; findNodesByLabelAndProperty then finds it by Place and by Location under its LOC_ID |
| `PlaceNodeMapper.SetIdsByKey` | src/main/java/info/jejking/opengeodb/neo4j/importer/PlaceNodeMapper.java:48-57 | the guarded calls for LOC_ID to NAME add exactly those keys' properties |
| `PlaceNodeMapper.SetPositionByKey` | src/main/java/info/jejking/opengeodb/neo4j/importer/PlaceNodeMapper.java:58-69 | the guarded calls for LATITUDE to DIALING_CODE add exactly those keys' properties |
| `PlaceNodeMapper.SetSizeByKey` | src/main/java/info/jejking/opengeodb/neo4j/importer/PlaceNodeMapper.java:70-78 | the guarded calls for POPULATION to NUMBER_PLATE_CODE add exactly those keys' properties |
| `PlaceNodeMapper.SetKindByKey` | src/main/java/info/jejking/opengeodb/neo4j/importer/PlaceNodeMapper.java:79-88 | the guarded calls for TYPE to INVALID add exactly those keys' properties |
| `PlaceNodeMapper.PlaceKeysByGroup` | src/main/java/info/jejking/opengeodb/neo4j/importer/PlaceNodeMapper.java:48-88 | the four groups of calls together cover exactly the place property keys |
| `PlaceNodeMapper.PlacePropsInOrder` | src/main/java/info/jejking/opengeodb/neo4j/importer/PlaceNodeMapper.java:48-88 | the calls in source order give the key-by-key property table: each key is set at most once |
| `PlaceNodeMapper.PutOneKey` | src/main/java/info/jejking/opengeodb/neo4j/importer/PlaceNodeMapper.java:48-88 | one more guarded call extends the table by that key |
| `PlaceNodeMapper.PlaceNodeTextKeys` | src/main/java/info/jejking/opengeodb/neo4j/importer/PlaceNodeMapper.java:49-57 | only place keys are set, and AGS, ASCII, NAME, AMT, DIALING_CODE, NUMBER_PLATE_CODE, TYPE and INVALID exactly when their field is non-null |
| `PlaceNodeMapper.PlaceNodeNumberKeys` | src/main/java/info/jejking/opengeodb/neo4j/importer/PlaceNodeMapper.java:58-85 | LOC_ID is always set, and LATITUDE, LONGITUDE, POPULATION, AREA and LEVEL exactly when their field is strictly positive |
| `PlaceNodeMapper.PlaceNodeFound` | src/main/java/info/jejking/opengeodb/neo4j/importer/PlaceNodeMapper.java:43-48 | a place node carries the Place and Location labels and its LOC_ID, so a lookup by either label and the id finds it; a typ becomes a label |
| `PlaceNodeMapper.TextFieldsReadBack` | src/test/java/info/jejking/opengeodb/neo4j/importer/PlaceNodeMapperTest.java:50-64 | every String property that is set equals its bean field; an absent one reads back as null |
| `PlaceNodeMapper.NumberFieldsReadBack` | src/test/java/info/jejking/opengeodb/neo4j/importer/PlaceNodeMapperTest.java:50-64 | every numeric property equals its bean field when positive, and reads back as 0 otherwise |
| `PlaceNodeMapper.PlaceNodeReadsBack` | src/main/java/info/jejking/opengeodb/neo4j/importer/PlaceNodeMapper.java:42-90 | the node keeps of a place everything but the postal codes, the parent id and non-positive numbers, and reading it back gives that |
| `PlaceNodeMapper.PlaceNodeSame` | src/main/java/info/jejking/opengeodb/neo4j/importer/PlaceNodeMapper.java:42-90 | two places get the same properties exactly when the node keeps the same of both |
| `PlaceNodeMapper.PlacePropKept` | src/main/java/info/jejking/opengeodb/neo4j/importer/PlaceNodeMapper.java:42-90 | each property depends only on what the node keeps of the place |
| `PlaceNodeMapper.PropsOverSame` | src/main/java/info/jejking/opengeodb/neo4j/importer/PlaceNodeMapper.java:42-90 | places that agree key by key get the same properties |
| `PlaceNodeMapper.KeptIdempotent` | src/main/java/info/jejking/opengeodb/neo4j/importer/PlaceNodeMapper.java:42-90 | the node loses nothing further when made from what it keeps |
| `PlzNodeMapper.SetOn` | src/main/java/info/jejking/opengeodb/neo4j/importer/PlzNodeMapper.java:47-53 | one setProperty on the new node sets that property and changes nothing else |
| `PlzNodeMapper.CreatePlzNode` | src/main/java/info/jejking/opengeodb/neo4j/importer/PlzNodeMapper.java:42-56 | createPlzNode creates exactly one new node under a fresh handle, with the PostalCode and Location labels and all five properties, and no relationship; findNodesByLabelAndProperty then finds it by Location under its LOC_ID and by PostalCode under its code, but not by Place |
| `PlzNodeMapper.PlzNodeKeys` | src/main/java/info/jejking/opengeodb/neo4j/importer/PlzNodeMapper.java:47-53 | a postal code node carries exactly LOC_ID, POSTAL_CODE, LATITUDE, LONGITUDE and PLACE_NAME |
| `PlzNodeMapper.PlzNodeFound` | src/test/java/info/jejking/opengeodb/neo4j/importer/PlzNodeMapperTest.java:78-111 | the node is found by Location and its LOC_ID, and by PostalCode and its postal code; it is not a Place |
| `PlzNodeMapper.PlzNodeReadsBack` | src/test/java/info/jejking/opengeodb/neo4j/importer/PlzNodeMapperTest.java:113-120 | reading the properties back gives the bean, the postal code as text and LATITUDE from lat, LONGITUDE from lon |
| `PlzNodeMapper.PlzNodeInjective` | src/main/java/info/jejking/opengeodb/neo4j/importer/PlzNodeMapper.java:51-52 | different postal code beans give different nodes: latitude and longitude are not swapped |
| `PlaceRelationshipBuilder.BuildRelationshipsForPlace` | src/main/java/info/jejking/opengeodb/neo4j/importer/PlaceRelationshipBuilder.java:50-56 | the PART_OF step then the postal code step: it makes the planned relationships of the place up to the first with a dead end, and succeeds exactly when all ends are live |
| `PlaceRelationshipBuilder.BuildPostalCodeRelationships` | src/main/java/info/jejking/opengeodb/neo4j/importer/PlaceRelationshipBuilder.java:73-90 | nothing when plzs is null or the place is not cached; otherwise one POSTAL_CODE_FOR relationship per comma-separated piece whose trimmed form is cached, in order |
| `PlaceRelationshipBuilder.LinkPostalCodes` | src/main/java/info/jejking/opengeodb/neo4j/importer/PlaceRelationshipBuilder.java:79-85 | the loop over the pieces: each trimmed piece is looked up, a hit gets a relationship from its postal code node to the place node, a miss is skipped |
| `PlaceRelationshipBuilder.BuildPartOfRelationshipForPlace` | src/main/java/info/jejking/opengeodb/neo4j/importer/PlaceRelationshipBuilder.java:104-116 | one PART_OF relationship from the place to its parent when of > 0 and both are cached, otherwise nothing and no failure |
| `PlaceRelationshipBuilder.LiveLinksStep` | src/main/java/info/jejking/opengeodb/neo4j/importer/PlaceRelationshipBuilder.java:80-85 | the relationships of the pieces so far stay live past one more piece whose relationship, if any, is live |
| `PlaceRelationshipBuilder.StopsAtDeadLink` | src/main/java/info/jejking/opengeodb/neo4j/importer/PlaceRelationshipBuilder.java:83 | the loop stops at the first piece whose relationship has a dead end |
| `PlaceRelationshipBuilder.PartOfLinksShape` | src/main/java/info/jejking/opengeodb/neo4j/importer/PlaceRelationshipBuilder.java:107-113 | a place has at most one PART_OF relationship, exactly when of > 0 and both ids are cached, going from the child node to the parent node |
| `PlaceRelationshipBuilder.LinksBetweenSplit` | src/main/java/info/jejking/opengeodb/neo4j/importer/PlaceRelationshipBuilder.java:80-85 | the pieces can be taken in two runs: their relationships are those of each run, in order |
| `PlaceRelationshipBuilder.TokenLinksAt` | src/main/java/info/jejking/opengeodb/neo4j/importer/PlaceRelationshipBuilder.java:80-85 | a cached piece's relationship sits between those of the pieces before and after it |
| `PlaceRelationshipBuilder.TokenLinksMembers` | src/main/java/info/jejking/opengeodb/neo4j/importer/PlaceRelationshipBuilder.java:80-84 | a relationship is planned for the pieces exactly when some piece is cached and the relationship goes from its node to the place |
| `PlaceRelationshipBuilder.TokenLinkSource` | src/main/java/info/jejking/opengeodb/neo4j/importer/PlaceRelationshipBuilder.java:80-84 | each planned relationship comes from a cached piece |
| `PlaceRelationshipBuilder.LinksBetweenCount` | src/main/java/info/jejking/opengeodb/neo4j/importer/PlaceRelationshipBuilder.java:80-84 | one relationship per cached piece, a repeated piece counted again |
| `PlaceRelationshipBuilder.TokenLinksDuplicate` | src/test/java/info/jejking/opengeodb/neo4j/importer/PlaceRelationshipBuilderTest.java:182 | a postal code listed twice gives two equal relationships: nothing is de-duplicated |
| `PlaceRelationshipBuilder.PostalLinksInto` | src/main/java/info/jejking/opengeodb/neo4j/importer/PlaceRelationshipBuilder.java:76-84 | every POSTAL_CODE_FOR relationship of a place needs non-null plzs and a cached place, ends at the place node and starts at a cached postal code node |
| `PlaceRelationshipBuilder.PostalLinksCount` | src/test/java/info/jejking/opengeodb/neo4j/importer/PlaceRelationshipBuilderTest.java:80-101 | the number of postal code relationships of a place equals the number of pieces whose trimmed form is cached |
| `Importer.Reached` | src/main/java/info/jejking/opengeodb/neo4j/importer/Importer.java:118-121 | a node phase gets through all its beans unless the store raises at one of them, and then through exactly the ones before it |
| `Importer.LinksOfStep` | src/main/java/info/jejking/opengeodb/neo4j/importer/Importer.java:135-137 | linking the next place appends its relationships after those of the places before it |
| `Importer.RunOnEmptyStore` | src/main/java/info/jejking/opengeodb/neo4j/importer/Importer.java:115-131 | what the caches held before the run does not matter, since each node phase starts its cache afresh |
| `Importer.Importer.constructor` | src/main/java/info/jejking/opengeodb/neo4j/importer/Importer.java:42-49 | a new importer has no beans, empty caches and an empty store (no nodes, no relationships, handle counter zero) |
| `Importer.Importer.CreatePlaceNodes` | src/main/java/info/jejking/opengeodb/neo4j/importer/Importer.java:115-122 | one node per place bean until the store raises, each cached under its id with the last write winning; it succeeds exactly when all beans got a node; no relationship is made |
| `Importer.Importer.CreatePlzNodes` | src/main/java/info/jejking/opengeodb/neo4j/importer/Importer.java:124-131 | one node per postal code bean until the store raises, each cached under its postal code with the last write winning; it succeeds exactly when all beans got a node |
| `Importer.Importer.CreateRelationships` | src/main/java/info/jejking/opengeodb/neo4j/importer/Importer.java:133-138 | the builder runs once per place bean, in list order, against both caches; the relationships made are the planned ones up to the first with a dead end, and it succeeds exactly when all are live |
| `Importer.Importer.DoInTransaction` | src/main/java/info/jejking/opengeodb/neo4j/importer/Importer.java:100-113 | a phase that returns is committed; one that raises is rolled back and reported to no one, and the caches keep what it put in them |
| `Importer.Importer.DoImport` | src/main/java/info/jejking/opengeodb/neo4j/importer/Importer.java:61-98 | both files are parsed, then place nodes, postal code nodes and relationships run in that order in three transactions on a fresh store, and the result is the run of the model |
| `Importer.LinkRunGoes` | src/main/java/info/jejking/opengeodb/neo4j/importer/Importer.java:135-137 | a place linked without failure extends the run by all its relationships |
| `Importer.LinkRunFails` | src/main/java/info/jejking/opengeodb/neo4j/importer/Importer.java:135-137 | a place whose linking raises ends the run, and the places after it are not tried |
| `Importer.LinksOfEnds` | src/main/java/info/jejking/opengeodb/neo4j/importer/PlaceRelationshipBuilder.java:76-113 | every planned relationship ends at a cached place node; a PART_OF one starts at a cached place node and a POSTAL_CODE_FOR one at a cached postal code node |
| `Importer.PlacePhase` | src/main/java/info/jejking/opengeodb/neo4j/importer/Importer.java:70-77 | the place transaction keeps its nodes exactly when the store never raised; its cache stays either way |
| `Importer.PlzPhase` | src/main/java/info/jejking/opengeodb/neo4j/importer/Importer.java:79-86 | the postal code transaction keeps its nodes exactly when the store never raised; its cache stays either way |
| `Importer.LinkPhase` | src/main/java/info/jejking/opengeodb/neo4j/importer/Importer.java:88-95 | the linking transaction keeps all the planned relationships or none of them |
| `Importer.ImportParts` | src/main/java/info/jejking/opengeodb/neo4j/importer/Importer.java:61-113 | a run phase by phase: how far each node phase got decides the commits, the handles, the nodes and both caches, and the relationships are all the planned ones or none |
| `Importer.RunNodes` | src/main/java/info/jejking/opengeodb/neo4j/importer/Importer.java:115-131 | the live nodes after a run are exactly those of the node phases that committed, the place nodes first, each the node of its bean |
| `Importer.LinksLive` | src/main/java/info/jejking/opengeodb/neo4j/importer/Importer.java:133-138 | when every cached node is live every planned relationship can be made |
| `Importer.LinksWithDeadPlaces` | src/main/java/info/jejking/opengeodb/neo4j/importer/Importer.java:100-113 | when no cached place node is live no planned relationship can be made |
| `Importer.LinksWithDeadPostalCodes` | src/main/java/info/jejking/opengeodb/neo4j/importer/Importer.java:100-113 | when the place nodes are live and the postal code nodes are not, exactly the PART_OF relationships can be made |
| `Importer.CompleteRun` | src/main/java/info/jejking/opengeodb/neo4j/importer/Importer.java:115-131 | after two complete node phases there is one node per bean, every bean's key is cached, and every planned relationship joins live nodes |
| `Importer.CompleteNodes` | src/main/java/info/jejking/opengeodb/neo4j/importer/Importer.java:115-131 | after two complete node phases the nodes are exactly one per bean |
| `Importer.CompleteCaches` | src/main/java/info/jejking/opengeodb/neo4j/importer/Importer.java:115-131 | after two complete node phases every bean's key is cached |
| `Importer.CompleteLinks` | src/main/java/info/jejking/opengeodb/neo4j/importer/Importer.java:133-138 | after two complete node phases every planned relationship joins live nodes |
| `Importer.CachedNodesLive` | src/main/java/info/jejking/opengeodb/neo4j/importer/Importer.java:115-131 | after two complete node phases every cached handle names a live node |
| `Importer.ImportWithoutFaults` | src/main/java/info/jejking/opengeodb/neo4j/importer/Importer.java:61-98 | when the store never raises all three transactions commit, with one node per bean, every key cached and every planned relationship made between live nodes |
| `Importer.ImportPlaceFault` | src/main/java/info/jejking/opengeodb/neo4j/importer/Importer.java:100-113 | when the place phase raises its nodes are gone while its cache still names them; the postal code phase runs regardless; the linking phase makes nothing and commits only when nothing was planned |
| `Importer.ImportPlzFault` | src/main/java/info/jejking/opengeodb/neo4j/importer/Importer.java:100-113 | when only the postal code phase raises, the place nodes stay; the linking phase commits exactly when every planned relationship is PART_OF, and keeps all or none |
## Left out

- File input, the embedded database (in Java `graphDb` stays null until `createDatabase`, `Importer.java:46,141`; the model's importer owns an empty store from construction), the shutdown hook and console output (`createDatabase`, `parsePlaces`, `parsePlz`, `ImporterRunner`). `DoImport` takes the two files as rows.
- The SuperCSV release is not part of this model. The model follows readers that run the processors on a row of the wrong width and raise a `SuperCsvException`, which the read loop catches and skips. Releases that check the width against the name mapping first raise `IllegalArgumentException` instead; the catch at `TabSeparatedBeanReader.java:95` does not take it, and the whole read would abort.
- SuperCSV tokenisation under the tab preference (splitting on tabs, quoting, an empty cell read as null). A row arrives pre-split as a sequence of optional cells.
- `SchemaCreator`: index creation and the wait for indexes to come online are store internals. `FindNodes` (findNodesByLabelAndProperty) is a scan of the live nodes.
- The stale index calls. `Importer.java:119` and `Importer.java:128` call three-argument mapper overloads that pass `nodeIndex`, and those overloads no longer exist (`PlaceNodeMapper.java:42`, `PlzNodeMapper.java:42`). The model calls the current two-argument mappers and leaves out the `nodeIndex` field.
- Store failures during a node phase are a parameter (`Fault`). The store raises before the faulted bean's node exists. An exception thrown partway through one node's `setProperty` calls is folded into that.
- Store failures in the linking phase other than a dead relationship end (for example an exception from `createRelationshipTo` between two live nodes) are not modelled. `DoImport` gives the linking transaction no fault, so `Importer.ImportWithoutFaults` promises that all three transactions commit only under that assumption.
- Transaction internals (memory bounds, `finish`). Rollback restores the nodes and relationships. The handle counter and the importer's caches are not touched by it.
- Doubles are `real`. `JavaText.ParseDouble` accepts an optional sign and plain decimal digits with an optional fraction, trimmed as `Double.valueOf` trims. Exponents, `NaN`, `Infinity`, hexadecimal forms, type suffixes, binary rounding and signed zero are not modelled. Java's `equals` compares doubles by `Double.doubleToLongBits`, so a bean read from "-0" differs from one read from "0"; in the model both cells read as 0 and `PlaceParser.Equals` and `PlzParser.Equals` find the beans equal.
- `JavaText.ParseInt` accepts ASCII digits only. Java's `Integer.valueOf` also accepts other Unicode decimal digits.
- `hashCode`, `toString`, getters and setters of the beans, and all logging.
- The test fixtures are not restated as concrete rows and beans. This covers the three places of the place file fixture, the two lines of the postal code fixture, the Hamburg and Uhlenhorst examples and the 5078 / "01067" lookup. General lemmas state what the tests check: `PlaceParser.ParseRowFields`, `PlzParser.RowOfReadsBack`, `PlaceNodeMapper.PlaceNodeReadsBack`, `PlzNodeMapper.PlzNodeFound`, `PlaceRelationshipBuilder.PostalLinksCount` and `PlaceRelationshipBuilder.TokenLinksDuplicate`.

## Notes on the code

Behaviour of the code worth knowing, which the model follows:

- A present but malformed optional numeric cell makes its processor chain throw. The reader then drops the whole row; only an empty cell leaves the field at zero.
- A phase that raises is caught and logged by `doInTransaction`. The failure does not reach the caller of `doImport`, and the later phases still run.
- The builder's Javadoc calls the caches "local, complete" (`PlaceRelationshipBuilder.java:44-47`), but a rolled-back node phase leaves its cache naming nodes that no longer exist. The linking phase then raises at the first relationship that touches one of them. It is rolled back as a whole, so it commits only when nothing touches a dead node (`Importer.ImportPlaceFault`, `Importer.ImportPlzFault`).
- Beans with the same key are kept apart. Each bean still gets its own node, the cache keeps the last one, and a postal code listed twice in `plzs` gives two relationships.
- The doc comment of `readDataFromStream` (`TabSeparatedBeanReader.java:71-72`) describes the flag the other way round. In the code, `true` consumes the first line as a header.
- The loop of `buildPostalCodeRelationships` is its own method, `PlaceRelationshipBuilder.LinkPostalCodes`.
