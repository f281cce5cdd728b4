/**
 * The values the viewer computes with: JavaScript numbers as `parseFloat`
 * yields them, JavaScript dates, and the point record `{lat, lon, datetime}`
 * built for each CSV row.
 */
module Points {

  /** A number produced by `parseFloat`: NaN, or a finite value. */
  datatype Num = NaN | Finite(value: real)

  /** A `Date` object: an invalid date (its time is NaN), or an instant in milliseconds. */
  datatype Instant = InvalidDate | At(ms: int)

  /** The record `{lat, lon, datetime}` built for one CSV row. */
  datatype Point = Point(lat: Num, lon: Num, datetime: Instant)

  /** The row test: neither coordinate is NaN and the date is valid. */
  predicate IsValid(p: Point)
  {
    p.lat.Finite? && p.lon.Finite? && p.datetime.At?
  }

  /** Every point of the track passed the row test. */
  predicate Validated(track: seq<Point>)
  {
    forall i | 0 <= i < |track| :: IsValid(track[i])
  }

  /** JavaScript `a + b` on numbers: NaN absorbs. */
  function Add(a: Num, b: Num): Num
  {
    if a.Finite? && b.Finite? then Finite(a.value + b.value) else NaN
  }

  /** JavaScript `a / n` for a positive count `n`. */
  function Div(a: Num, n: nat): Num
    requires n > 0
  {
    if a.Finite? then Finite(a.value / n as real) else NaN
  }

  /** JavaScript `a < b` on two `Date` objects: false whenever either time is NaN. */
  predicate Before(a: Instant, b: Instant)
  {
    a.At? && b.At? && a.ms < b.ms
  }
}
