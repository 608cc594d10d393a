/** The exported entry point of the library's index: a placeholder for
    the perspective calculation. The geometry helpers that sit beside it
    are the same as the transform's and are modelled once, in Geometry. */
module Index {
  import opened Geometry

  datatype Option<T> = None | Some(value: T)

  /** Ignores both corner lists and produces no transform. */
  function CalculateTransform(source: seq<Coordinate>, dest: seq<Coordinate>): (r: Option<Perspective>)
    ensures r.None?
  {
    None
  }
}
