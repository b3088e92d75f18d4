/**
 * OpenGeoDbProperties: the labels and property keys put on the nodes. A property key is
 * the name of an enum constant; the place and postal code enums share the names
 * LOC_ID, LATITUDE and LONGITUDE, which are therefore the same key on a node.
 */
module OpenGeoDbProperties {
  /** The label on every node the importer creates. */
  const LocationLabel: string := "Location"
  /** The label on place nodes. */
  const PlaceLabel: string := "Place"
  /** The label on postal code nodes. */
  const PostalCodeLabel: string := "PostalCode"

  /**
   * Every property key the importer writes: the constants of PlaceNodeProperties and of
   * PlzProperties, one constructor per distinct name.
   */
  datatype PropKey =
    | LOC_ID | AGS | ASCII | NAME | LATITUDE | LONGITUDE | AMT | DIALING_CODE | POPULATION
    | AREA | NUMBER_PLATE_CODE | TYPE | LEVEL | INVALID
    | POSTAL_CODE | PLACE_NAME

  /** The constants of PlaceNodeProperties. */
  const PlaceKeys: set<PropKey> := {LOC_ID, AGS, ASCII, NAME, LATITUDE, LONGITUDE, AMT, DIALING_CODE,
    POPULATION, AREA, NUMBER_PLATE_CODE, TYPE, LEVEL, INVALID}

  /** The constants of PlzProperties. */
  const PlzKeys: set<PropKey> := {LOC_ID, POSTAL_CODE, LATITUDE, LONGITUDE, PLACE_NAME}
}
