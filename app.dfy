/**
 * The viewer's state (the per-device tracks, the visibility flags and the
 * two date-time inputs), its transitions, and what the derived filtered
 * map and map centre do across them.
 */
module App {
  import opened Wrappers
  import opened Points
  import opened Ingest
  import opened Visibility
  import opened Window
  import opened Center
  import opened Render

  /** `fullDeviceData`, `visibleDevices`, `startDateTime` and `endDateTime`. */
  datatype View = View(tracks: map<string, seq<Point>>, visible: map<string, bool>,
                       startInput: string, endInput: string)

  /** Two devices with empty tracks, both visible, and both inputs empty. */
  const Initial: View :=
    View(map["device1" := [], "device2" := []], map["device1" := true, "device2" := true], "", "")

  /** Every stored track consists of rows that passed the row test. */
  predicate WellFormed(v: View)
  {
    forall d | d in v.tracks :: Validated(v.tracks[d])
  }

  /** `filteredDeviceData` of the view. */
  function Filtered(v: View, parseDate: string -> Instant): map<string, seq<Point>>
  {
    FilteredData(v.tracks, v.visible, Bound(v.startInput, parseDate), Bound(v.endInput, parseDate))
  }

  /** `mapCenter` of the view. */
  ghost function ViewCenter(v: View, parseDate: string -> Instant): (Num, Num)
  {
    MapCenterSpec(Filtered(v, parseDate), v.visible)
  }

  /** The completion callback: the device's track becomes the validated rows. */
  function CompleteIngestion(v: View, device: string, rows: seq<Row>,
                             parseNumber: string -> Num, parseDate: string -> Instant): (w: View)
    ensures WellFormed(v) ==> WellFormed(w)
    ensures w.tracks.Keys == v.tracks.Keys + {device}
    ensures device in w.tracks && w.tracks[device] == Validate(rows, parseNumber, parseDate)
    ensures forall d | d in v.tracks && d != device :: d in w.tracks && w.tracks[d] == v.tracks[d]
    ensures w.visible == v.visible && w.startInput == v.startInput && w.endInput == v.endInput
  {
    v.(tracks := Ingested(v.tracks, device, Validate(rows, parseNumber, parseDate)))
  }

  /** A click on the device's checkbox. */
  function ToggleDevice(v: View, device: string): (w: View)
    ensures w.tracks == v.tracks && w.startInput == v.startInput && w.endInput == v.endInput
    ensures Visible(w.visible, device) == !Visible(v.visible, device)
    ensures forall d | d != device :: Visible(w.visible, d) == Visible(v.visible, d)
  {
    v.(visible := Toggled(v.visible, device))
  }

  /** The first render: the state is well formed and the map sits at the default centre. */
  lemma InitialCenter(parseDate: string -> Instant)
    ensures WellFormed(Initial)
    ensures ViewCenter(Initial, parseDate) == DefaultCenter
  {
    var filtered := Filtered(Initial, parseDate);
    forall d | d in filtered
      ensures filtered[d] == []
    {
      assert Initial.tracks[d] == [];
    }
    NothingVisibleGivesDefault(filtered, Initial.visible);
  }

  /** Hiding a visible device empties its entry and leaves every other entry as it was. */
  lemma ToggleOffEntries(v: View, device: string, parseDate: string -> Instant)
    requires device in v.tracks && Visible(v.visible, device)
    ensures var before, after := Filtered(v, parseDate), Filtered(ToggleDevice(v, device), parseDate);
      && after.Keys == before.Keys
      && after[device] == []
      && forall d | d in before && d != device :: after[d] == before[d]
  {
    var before, after := Filtered(v, parseDate), Filtered(ToggleDevice(v, device), parseDate);
    assert forall d | d in before && d != device :: after[d] == before[d];
  }

  /** Hiding a visible device takes exactly that device's points out of the centre's sums. */
  lemma ToggleOffRemovesContribution(v: View, device: string, parseDate: string -> Instant)
    requires device in v.tracks && Visible(v.visible, device)
    ensures VisibleTally(Filtered(v, parseDate), v.visible) ==
      Plus(VisibleTally(Filtered(ToggleDevice(v, device), parseDate), ToggleDevice(v, device).visible),
           TallyOf(Filtered(v, parseDate)[device]))
  {
    var w := ToggleDevice(v, device);
    var before, after := Filtered(v, parseDate), Filtered(w, parseDate);
    ToggleOffEntries(v, device, parseDate);
    TallyOverPick(before, v.visible, before.Keys, device);
    TallyOverPick(after, w.visible, after.Keys, device);
    TallyOverCongruent(before, v.visible, after, w.visible, before.Keys - {device});
    ZeroNeutral(TallyOver(after, w.visible, after.Keys - {device}));
  }

  /**
   * When both inputs parse to valid dates with the start after the end,
   * every device's entry is empty and the map falls back to the default centre.
   */
  lemma InvertedInputsEmptyView(v: View, parseDate: string -> Instant, s: int, e: int)
    requires WellFormed(v)
    requires Bound(v.startInput, parseDate) == Some(At(s)) && Bound(v.endInput, parseDate) == Some(At(e))
    requires s > e
    ensures forall d | d in Filtered(v, parseDate) :: Filtered(v, parseDate)[d] == []
    ensures ViewCenter(v, parseDate) == DefaultCenter
  {
    InvertedBoundsEmptyAll(v.tracks, v.visible, s, e);
    NothingVisibleGivesDefault(Filtered(v, parseDate), v.visible);
  }

  /**
   * In a well-formed view the centre is always a pair of numbers, never NaN:
   * the default, or the means over all visible filtered points.
   */
  lemma ViewCenterFinite(v: View, parseDate: string -> Instant)
    requires WellFormed(v)
    ensures ViewCenter(v, parseDate).0.Finite? && ViewCenter(v, parseDate).1.Finite?
  {
    var filtered := Filtered(v, parseDate);
    forall d | d in filtered
      ensures Validated(filtered[d])
    {
      DrawnWhole(v, parseDate, d);
    }
    TallyOverFinite(filtered, v.visible, filtered.Keys);
  }

  /** In a well-formed view every filtered point reaches its polyline, in order. */
  lemma DrawnWhole(v: View, parseDate: string -> Instant, device: string)
    requires WellFormed(v) && device in v.tracks
    ensures var coords := Filtered(v, parseDate)[device];
      Validated(coords) && |LatLngs(coords)| == |coords| &&
      forall i | 0 <= i < |coords| :: LatLngs(coords)[i] == (coords[i].lat.value, coords[i].lon.value)
  {
    var coords := Filtered(v, parseDate)[device];
    var track := v.tracks[device];
    forall i | 0 <= i < |coords|
      ensures IsValid(coords[i])
    {
      assert coords[i] in track;
    }
    ValidatedDrawnWhole(coords);
  }
}
