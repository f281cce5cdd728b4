/**
 * The completion callback of `parseCsv`: each parsed CSV row becomes a point
 * record, rows with a NaN coordinate or an invalid date are dropped, and the
 * device's track is replaced by the result.
 */
module Ingest {
  import opened Wrappers
  import opened Seqs
  import opened Points

  /**
   * One header-keyed CSV row; a column the row lacks is `None`
   * (`undefined` in JavaScript).
   */
  datatype Row = Row(latitude: Option<string>, longitude: Option<string>, datetime: Option<string>)

  /**
   * The row's three fields as `parseFloat` and `new Date` read them after
   * trimming. The parsers are parameters; a missing column reaches them as
   * `undefined`, which gives NaN and an invalid date whatever the parser.
   */
  function ToPoint(row: Row, parseNumber: string -> Num, parseDate: string -> Instant): (p: Point)
    ensures IsValid(p) ==> row.latitude.Some? && row.longitude.Some? && row.datetime.Some?
  {
    Point(
      if row.latitude.Some? then parseNumber(row.latitude.value) else NaN,
      if row.longitude.Some? then parseNumber(row.longitude.value) else NaN,
      if row.datetime.Some? then parseDate(row.datetime.value) else InvalidDate)
  }

  /** The `.map` step: one point record per row, in row order. */
  function Parsed(rows: seq<Row>, parseNumber: string -> Num, parseDate: string -> Instant): (points: seq<Point>)
    ensures |points| == |rows|
    ensures forall i | 0 <= i < |rows| :: points[i] == ToPoint(rows[i], parseNumber, parseDate)
  {
    seq(|rows|, i requires 0 <= i < |rows| => ToPoint(rows[i], parseNumber, parseDate))
  }

  /** The map-then-filter chain: the track stored for the device. */
  function Validate(rows: seq<Row>, parseNumber: string -> Num, parseDate: string -> Instant): (track: seq<Point>)
    ensures Validated(track)
    ensures |track| <= |rows|
  {
    Filter(Parsed(rows, parseNumber, parseDate), IsValid)
  }

  /**
   * A point is stored exactly when some row converts to it and it passes the
   * row test, and the stored points keep the order of their rows.
   */
  lemma ValidateKeepsExactlyValidRows(rows: seq<Row>, parseNumber: string -> Num, parseDate: string -> Instant)
    ensures var track := Validate(rows, parseNumber, parseDate);
      && IsSubsequence(track, Parsed(rows, parseNumber, parseDate))
      && forall p :: p in track <==>
           IsValid(p) && exists i | 0 <= i < |rows| :: ToPoint(rows[i], parseNumber, parseDate) == p
  {
    var points := Parsed(rows, parseNumber, parseDate);
    FilterIsSubsequence(points, IsValid);
    FilterMembership(points, IsValid);
    forall p
      ensures p in points <==> exists i | 0 <= i < |rows| :: ToPoint(rows[i], parseNumber, parseDate) == p
    {
      if p in points {
        var i :| 0 <= i < |points| && points[i] == p;
        assert ToPoint(rows[i], parseNumber, parseDate) == p;
      }
    }
  }

  /**
   * Rows are judged one at a time and in order: appending a row appends its
   * point exactly when neither coordinate is NaN and its date is valid.
   */
  lemma AppendRow(rows: seq<Row>, row: Row, parseNumber: string -> Num, parseDate: string -> Instant)
    ensures var p := ToPoint(row, parseNumber, parseDate);
      Validate(rows + [row], parseNumber, parseDate) ==
        Validate(rows, parseNumber, parseDate) +
        (if p.lat.Finite? && p.lon.Finite? && p.datetime.At? then [p] else [])
  {
    var p := ToPoint(row, parseNumber, parseDate);
    assert Parsed(rows + [row], parseNumber, parseDate) == Parsed(rows, parseNumber, parseDate) + [p];
    FilterAppend(Parsed(rows, parseNumber, parseDate), [p], IsValid);
  }

  /** A row that lacks one of the three columns is never stored. */
  lemma MissingColumnDropped(row: Row, parseNumber: string -> Num, parseDate: string -> Instant)
    requires row.latitude.None? || row.longitude.None? || row.datetime.None?
    ensures Validate([row], parseNumber, parseDate) == []
  {
    assert Parsed([row], parseNumber, parseDate) == [ToPoint(row, parseNumber, parseDate)];
  }

  /**
   * Completion replaces the one device's track, adding its key if needed;
   * every other device keeps its key and its track.
   */
  function Ingested(tracks: map<string, seq<Point>>, device: string, parsed: seq<Point>): (r: map<string, seq<Point>>)
    ensures r.Keys == tracks.Keys + {device}
    ensures r[device] == parsed
    ensures forall d | d in tracks && d != device :: r[d] == tracks[d]
  {
    tracks[device := parsed]
  }

  /** The two fetches may complete in either order: the resulting store is the same. */
  lemma CompletionsCommute(tracks: map<string, seq<Point>>, d1: string, t1: seq<Point>, d2: string, t2: seq<Point>)
    requires d1 != d2
    ensures Ingested(Ingested(tracks, d1, t1), d2, t2) == Ingested(Ingested(tracks, d2, t2), d1, t1)
  {
  }
}
