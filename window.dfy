/**
 * The `filteredDeviceData` computation: each device's track cut to the
 * inclusive date-time window, or emptied when the device is hidden.
 */
module Window {
  import opened Wrappers
  import opened Seqs
  import opened Points
  import opened Visibility

  /** A bound from a date-time input: an empty string means no bound, anything else is parsed. */
  function Bound(input: string, parseDate: string -> Instant): (b: Option<Instant>)
    ensures b.None? <==> input == ""
    ensures b.Some? ==> b.value == parseDate(input)
  {
    if input == "" then None else Some(parseDate(input))
  }

  /**
   * An empty input, or one the date parser rejects, leaves that side of the
   * window open: the result is the same as with no bound at all.
   */
  lemma BlankOrInvalidInputIgnored(track: seq<Point>, input: string, parseDate: string -> Instant,
                                   start: Option<Instant>, end: Option<Instant>)
    requires input == "" || parseDate(input) == InvalidDate
    ensures Select(track, Bound(input, parseDate), end) == Select(track, None, end)
    ensures Select(track, start, Bound(input, parseDate)) == Select(track, start, None)
  {
    InvalidBoundIgnored(track, start, end);
  }

  /**
   * The filter callback: `start && datetime < start` or `end && datetime > end`
   * rejects the point. For a valid date both bounds are inclusive, and a
   * missing or invalid bound imposes nothing.
   */
  predicate InWindow(t: Instant, start: Option<Instant>, end: Option<Instant>)
    ensures t.At? ==>
      (InWindow(t, start, end) <==>
        (start.None? || start.value.InvalidDate? || start.value.ms <= t.ms) &&
        (end.None? || end.value.InvalidDate? || t.ms <= end.value.ms))
  {
    !(start.Some? && Before(t, start.value)) && !(end.Some? && Before(end.value, t))
  }

  /** The filter callback as a function value. */
  function InWindowTest(start: Option<Instant>, end: Option<Instant>): Point -> bool
  {
    (p: Point) => InWindow(p.datetime, start, end)
  }

  /** `fullDeviceData[device].filter(...)` for a visible device. */
  function Select(track: seq<Point>, start: Option<Instant>, end: Option<Instant>): (r: seq<Point>)
    ensures |r| <= |track|
    ensures forall i | 0 <= i < |r| :: InWindow(r[i].datetime, start, end)
  {
    Filter(track, InWindowTest(start, end))
  }

  /**
   * The window keeps, in track order, exactly the points whose date lies
   * within the bounds, each as many times as it occurs in the track.
   */
  lemma SelectKeepsExactlyWindow(track: seq<Point>, start: Option<Instant>, end: Option<Instant>)
    ensures IsSubsequence(Select(track, start, end), track)
    ensures forall p :: p in Select(track, start, end) <==> p in track && InWindow(p.datetime, start, end)
    ensures forall p ::
      multiset(Select(track, start, end))[p] == (if InWindow(p.datetime, start, end) then multiset(track)[p] else 0)
  {
    FilterIsSubsequence(track, InWindowTest(start, end));
    FilterMembership(track, InWindowTest(start, end));
    FilterCount(track, InWindowTest(start, end));
  }

  /**
   * Points are judged one at a time and in order: appending a point to the
   * track appends it to the window exactly when its date passes the test.
   */
  lemma AppendPoint(track: seq<Point>, p: Point, start: Option<Instant>, end: Option<Instant>)
    ensures Select(track + [p], start, end) ==
      Select(track, start, end) + (if InWindow(p.datetime, start, end) then [p] else [])
  {
    FilterAppend(track, [p], InWindowTest(start, end));
  }

  /**
   * On a validated track with both bounds valid, a point is kept exactly
   * when `start <= t <= end`: both ends are inclusive.
   */
  lemma InclusiveBounds(track: seq<Point>, s: int, e: int)
    requires Validated(track)
    ensures forall p :: p in Select(track, Some(At(s)), Some(At(e))) <==>
      p in track && s <= p.datetime.ms <= e
  {
    SelectKeepsExactlyWindow(track, Some(At(s)), Some(At(e)));
  }

  /** Equal bounds keep exactly the points dated at that instant. */
  lemma EqualBounds(track: seq<Point>, s: int)
    requires Validated(track)
    ensures forall p :: p in Select(track, Some(At(s)), Some(At(s))) <==> p in track && p.datetime == At(s)
  {
    InclusiveBounds(track, s, s);
  }

  /** A start after the end empties a validated track; the bounds are not swapped. */
  lemma InvertedBounds(track: seq<Point>, s: int, e: int)
    requires Validated(track) && s > e
    ensures Select(track, Some(At(s)), Some(At(e))) == []
  {
    var r := Select(track, Some(At(s)), Some(At(e)));
    assert r != [] ==> r[0] in r;
    InclusiveBounds(track, s, e);
    assert forall p :: p !in r;
  }

  /**
   * A bound string that parses to an invalid date is truthy yet every
   * comparison with it is false, so it filters exactly like no bound.
   */
  lemma InvalidBoundIgnored(track: seq<Point>, start: Option<Instant>, end: Option<Instant>)
    ensures Select(track, Some(InvalidDate), end) == Select(track, None, end)
    ensures Select(track, start, Some(InvalidDate)) == Select(track, start, None)
  {
    FilterCongruent(track, InWindowTest(Some(InvalidDate), end), InWindowTest(None, end));
    FilterCongruent(track, InWindowTest(start, Some(InvalidDate)), InWindowTest(start, None));
  }

  /**
   * Points at 2024-01-01T00:00Z and 2024-01-02T00:00Z with the start
   * 2024-01-01T12:00Z and no end: only the second point is kept.
   */
  lemma StartOnlyExample()
    ensures var p1 := Point(Finite(10.0), Finite(20.0), At(1704067200000));
      var p2 := Point(Finite(11.0), Finite(21.0), At(1704153600000));
      Select([p1, p2], Some(At(1704110400000)), None) == [p2]
  {
    var p1 := Point(Finite(10.0), Finite(20.0), At(1704067200000));
    var p2 := Point(Finite(11.0), Finite(21.0), At(1704153600000));
    assert [p1, p2][1..] == [p2];
    assert [p2][1..] == [];
  }

  /**
   * The per-device result of `filteredDeviceData`: one entry per device of
   * the store, empty for a hidden device, the window of its track otherwise.
   */
  function FilteredData(tracks: map<string, seq<Point>>, vis: map<string, bool>,
                        start: Option<Instant>, end: Option<Instant>): (r: map<string, seq<Point>>)
    ensures r.Keys == tracks.Keys
  {
    map d | d in tracks :: if Visible(vis, d) then Select(tracks[d], start, end) else []
  }

  /**
   * The filtered map has the store's keys; a hidden device gets nothing
   * whatever its track holds, and a visible one gets, in order, exactly the
   * points of its own track that lie in the window, duplicates included.
   */
  lemma FilteredDataMeaning(tracks: map<string, seq<Point>>, vis: map<string, bool>,
                            start: Option<Instant>, end: Option<Instant>, device: string)
    requires device in tracks
    ensures var r := FilteredData(tracks, vis, start, end);
      && r.Keys == tracks.Keys
      && (!Visible(vis, device) ==> r[device] == [])
      && (Visible(vis, device) ==>
            IsSubsequence(r[device], tracks[device]) &&
            (forall p :: p in r[device] <==> p in tracks[device] && InWindow(p.datetime, start, end)) &&
            forall p ::
              multiset(r[device])[p] == (if InWindow(p.datetime, start, end) then multiset(tracks[device])[p] else 0))
  {
    SelectKeepsExactlyWindow(tracks[device], start, end);
  }

  /** A device's entry depends only on its own track, its own flag and the bounds. */
  lemma FilteredDataLocal(tracks: map<string, seq<Point>>, vis: map<string, bool>,
                          tracks': map<string, seq<Point>>, vis': map<string, bool>,
                          start: Option<Instant>, end: Option<Instant>, device: string)
    requires device in tracks && device in tracks'
    requires tracks[device] == tracks'[device] && Visible(vis, device) == Visible(vis', device)
    ensures FilteredData(tracks, vis, start, end)[device] == FilteredData(tracks', vis', start, end)[device]
  {
  }

  /** With both bounds valid and the start after the end, every device's entry is empty. */
  lemma InvertedBoundsEmptyAll(tracks: map<string, seq<Point>>, vis: map<string, bool>, s: int, e: int)
    requires forall d | d in tracks :: Validated(tracks[d])
    requires s > e
    ensures forall d | d in tracks :: FilteredData(tracks, vis, Some(At(s)), Some(At(e)))[d] == []
  {
    forall d | d in tracks
      ensures FilteredData(tracks, vis, Some(At(s)), Some(At(e)))[d] == []
    {
      InvertedBounds(tracks[d], s, e);
    }
  }

  /**
   * The `for` loop over the store's devices in `src/App.jsx`: walks the store's devices, gives a hidden one
   * `[]` and `continue`s, and gives a visible one the window of its track.
   */
  method FilterDevices(tracks: map<string, seq<Point>>, vis: map<string, bool>,
                       start: Option<Instant>, end: Option<Instant>) returns (filtered: map<string, seq<Point>>)
    ensures filtered == FilteredData(tracks, vis, start, end)
  {
    filtered := map[];
    var todo := tracks.Keys;
    while todo != {}
      invariant todo <= tracks.Keys
      invariant filtered.Keys == tracks.Keys - todo
      invariant forall d | d in filtered :: filtered[d] == FilteredData(tracks, vis, start, end)[d]
      decreases todo
    {
      var device :| device in todo;
      todo := todo - {device};
      if !Visible(vis, device) {
        filtered := filtered[device := []];
        continue;
      }
      filtered := filtered[device := Select(tracks[device], start, end)];
    }
  }
}
