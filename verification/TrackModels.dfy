/** The records and constants of track-map generation. */
module TrackModels {
  const NUM_BINS := 800
  const SVG_WIDTH := 1000.0
  const SVG_HEIGHT := 600.0
  const SVG_PADDING := 40.0

  /** A lap distance with the world position there. */
  datatype Point = Point(distance: real, x: real, z: real)
  datatype Flat = Flat(x: real, z: real)

  /** What generation writes: the averaged world coordinates and the points of the drawing. */
  datatype Map = Map(raw: seq<Flat>, drawn: seq<Flat>)
}
