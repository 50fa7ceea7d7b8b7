/** The input document's data: points and polylines as the importer reads them
    from the `polylines` array, with coordinates as exact reals. */
module Geometry {

  datatype Option<+T> = None | Some(value: T)

  /** One vertex `[x, y, z]` of a polyline. */
  datatype Point3 = Point3(x: real, y: real, z: real)

  /** The three coordinate axes, so that per-axis facts are stated once. */
  datatype Axis = X | Y | Z

  function Coord(p: Point3, a: Axis): real
  {
    match a
    case X => p.x
    case Y => p.y
    case Z => p.z
  }

  /** One entry of the `polylines` array. A key missing from the entry is `None`;
      the accessors below apply the importer's defaults. */
  datatype Polyline = Polyline(points: Option<seq<Point3>>, closed: Option<bool>, layer: Option<string>)

  /** `pl.get('points', [])` */
  function Points(pl: Polyline): seq<Point3>
  {
    match pl.points
    case Some(ps) => ps
    case None => []
  }

  /** `pl.get('closed', False)`, read as a truth value. */
  predicate IsClosed(pl: Polyline)
  {
    pl.closed == Some(true)
  }

  const DefaultLayer: string := "Default"

  /** `pl.get('layer', 'Default')` */
  function LayerOf(pl: Polyline): string
  {
    match pl.layer
    case Some(name) => name
    case None => DefaultLayer
  }
}
