/**
 * The coordinates handed to each device's polyline: points with a NaN
 * coordinate are dropped and the rest become `[lat, lon]` pairs, in order.
 */
module Render {
  import opened Seqs
  import opened Points

  /** `!isNaN(lat) && !isNaN(lon)`. */
  predicate HasCoordinates(p: Point)
    ensures IsValid(p) ==> HasCoordinates(p)
  {
    p.lat.Finite? && p.lon.Finite?
  }

  /** The polyline's vertices: the drawable points, each as a latitude-longitude pair. */
  function LatLngs(coords: seq<Point>): (latlngs: seq<(real, real)>)
    ensures |latlngs| <= |coords|
  {
    var drawable := Filter(coords, HasCoordinates);
    seq(|drawable|, i requires 0 <= i < |drawable| => (drawable[i].lat.value, drawable[i].lon.value))
  }

  /**
   * Points are judged one at a time and in order: appending a point appends
   * its pair exactly when neither of its coordinates is NaN.
   */
  lemma AppendCoordinate(coords: seq<Point>, p: Point)
    ensures LatLngs(coords + [p]) ==
      LatLngs(coords) + (if p.lat.Finite? && p.lon.Finite? then [(p.lat.value, p.lon.value)] else [])
  {
    FilterAppend(coords, [p], HasCoordinates);
  }

  /** A validated track is drawn whole: one pair per point, in track order. */
  lemma ValidatedDrawnWhole(coords: seq<Point>)
    requires Validated(coords)
    ensures |LatLngs(coords)| == |coords|
    ensures forall i | 0 <= i < |coords| :: LatLngs(coords)[i] == (coords[i].lat.value, coords[i].lon.value)
  {
    FilterAll(coords, HasCoordinates);
  }
}
