/**
 * The `mapCenter` computation: the mean latitude and longitude of every
 * point of every visible device in the filtered map, or a fixed default
 * when there is none.
 */
module Center {
  import opened Points
  import opened Visibility

  /** The three accumulators `latSum`, `lonSum` and `count`. */
  datatype Tally = Tally(latSum: Num, lonSum: Num, count: nat)

  /** The accumulators' initial values. */
  const Zero: Tally := Tally(Finite(0.0), Finite(0.0), 0)

  /** The fallback centre when no point is visible. */
  const DefaultCenter: (Num, Num) := (Finite(43.5), Finite(16.25))

  function Plus(a: Tally, b: Tally): Tally
  {
    Tally(Add(a.latSum, b.latSum), Add(a.lonSum, b.lonSum), a.count + b.count)
  }

  lemma PlusAssociative(a: Tally, b: Tally, c: Tally)
    ensures Plus(Plus(a, b), c) == Plus(a, Plus(b, c))
  {
  }

  lemma PlusCommutative(a: Tally, b: Tally)
    ensures Plus(a, b) == Plus(b, a)
  {
  }

  lemma ZeroNeutral(a: Tally)
    ensures Plus(a, Zero) == a && Plus(Zero, a) == a
  {
  }

  /** What one point adds to the accumulators. */
  function Single(p: Point): Tally
  {
    Tally(p.lat, p.lon, 1)
  }

  /** The accumulators after the `forEach` over `pts`, first point first. */
  function TallyOf(pts: seq<Point>): (t: Tally)
    ensures t.count == |pts|
  {
    if pts == [] then Zero else Plus(TallyOf(pts[..|pts| - 1]), Single(pts[|pts| - 1]))
  }

  /** What one device adds: its filtered points when it is visible, nothing otherwise. */
  function Contribution(filtered: map<string, seq<Point>>, vis: map<string, bool>, device: string): Tally
    requires device in filtered
  {
    if Visible(vis, device) then TallyOf(filtered[device]) else Zero
  }

  /** The accumulators summed over the devices `ds`, taken in an unspecified order. */
  ghost function TallyOver(filtered: map<string, seq<Point>>, vis: map<string, bool>, ds: set<string>): Tally
    requires ds <= filtered.Keys
    decreases ds
  {
    if ds == {} then Zero
    else
      var d :| d in ds;
      Plus(TallyOver(filtered, vis, ds - {d}), Contribution(filtered, vis, d))
  }

  /**
   * Any device may be taken last: the sum does not depend on the order in
   * which `Object.keys` lists the devices.
   */
  lemma {:induction false} TallyOverPick(filtered: map<string, seq<Point>>, vis: map<string, bool>, ds: set<string>, x: string)
    requires ds <= filtered.Keys && x in ds
    ensures TallyOver(filtered, vis, ds) == Plus(TallyOver(filtered, vis, ds - {x}), Contribution(filtered, vis, x))
    decreases ds
  {
    var y :| y in ds && TallyOver(filtered, vis, ds) ==
      Plus(TallyOver(filtered, vis, ds - {y}), Contribution(filtered, vis, y));
    if y != x {
      var rest := ds - {x} - {y};
      assert ds - {y} - {x} == rest;
      TallyOverPick(filtered, vis, ds - {y}, x);
      TallyOverPick(filtered, vis, ds - {x}, y);
      var r, cx, cy := TallyOver(filtered, vis, rest), Contribution(filtered, vis, x), Contribution(filtered, vis, y);
      PlusAssociative(r, cx, cy);
      PlusAssociative(r, cy, cx);
      PlusCommutative(cx, cy);
    }
  }

  /** Sums over the same devices with the same contributions are equal. */
  lemma {:induction false} TallyOverCongruent(filtered: map<string, seq<Point>>, vis: map<string, bool>,
                                               filtered': map<string, seq<Point>>, vis': map<string, bool>, ds: set<string>)
    requires ds <= filtered.Keys && ds <= filtered'.Keys
    requires forall d | d in ds :: Contribution(filtered, vis, d) == Contribution(filtered', vis', d)
    ensures TallyOver(filtered, vis, ds) == TallyOver(filtered', vis', ds)
    decreases ds
  {
    if ds != {} {
      var x :| x in ds;
      TallyOverPick(filtered, vis, ds, x);
      TallyOverPick(filtered', vis', ds, x);
      TallyOverCongruent(filtered, vis, filtered', vis', ds - {x});
    }
  }

  /** The total count is zero exactly when every device in `ds` is hidden or has no point. */
  lemma {:induction false} CountZeroIff(filtered: map<string, seq<Point>>, vis: map<string, bool>, ds: set<string>)
    requires ds <= filtered.Keys
    ensures TallyOver(filtered, vis, ds).count == 0 <==>
      forall d | d in ds :: !Visible(vis, d) || filtered[d] == []
    decreases ds
  {
    if ds != {} {
      var x :| x in ds;
      TallyOverPick(filtered, vis, ds, x);
      CountZeroIff(filtered, vis, ds - {x});
      var c := Contribution(filtered, vis, x);
      assert c.count == 0 <==> !Visible(vis, x) || filtered[x] == [];
      assert TallyOver(filtered, vis, ds).count == TallyOver(filtered, vis, ds - {x}).count + c.count;
      if forall d | d in ds :: !Visible(vis, d) || filtered[d] == [] {
        assert forall d | d in ds - {x} :: !Visible(vis, d) || filtered[d] == [];
      } else {
        var d :| d in ds && Visible(vis, d) && filtered[d] != [];
        assert d == x || d in ds - {x};
      }
    }
  }

  /** Hidden devices add nothing, whatever their filtered entries hold. */
  lemma {:induction false} HiddenAddNothing(filtered: map<string, seq<Point>>, vis: map<string, bool>, ds: set<string>)
    requires ds <= filtered.Keys
    requires forall d | d in ds :: !Visible(vis, d)
    ensures TallyOver(filtered, vis, ds) == Zero
    decreases ds
  {
    if ds != {} {
      var x :| x in ds;
      TallyOverPick(filtered, vis, ds, x);
      HiddenAddNothing(filtered, vis, ds - {x});
      ZeroNeutral(Zero);
    }
  }

  /** When every entry is validated the sums never become NaN. */
  lemma {:induction false} TallyOverFinite(filtered: map<string, seq<Point>>, vis: map<string, bool>, ds: set<string>)
    requires ds <= filtered.Keys
    requires forall d | d in ds :: Validated(filtered[d])
    ensures TallyOver(filtered, vis, ds).latSum.Finite? && TallyOver(filtered, vis, ds).lonSum.Finite?
    decreases ds
  {
    if ds != {} {
      var x :| x in ds;
      TallyOverPick(filtered, vis, ds, x);
      TallyOverFinite(filtered, vis, ds - {x});
      TallyOfValidated(filtered[x]);
    }
  }

  /** The accumulators over every device of the filtered map. */
  ghost function VisibleTally(filtered: map<string, seq<Point>>, vis: map<string, bool>): Tally
  {
    TallyOver(filtered, vis, filtered.Keys)
  }

  /** The result of `mapCenter`: the default when nothing was counted, the means otherwise. */
  function CenterOf(t: Tally): (r: (Num, Num))
    ensures t.count == 0 ==> r == DefaultCenter
    ensures t.count > 0 ==> (r.0.Finite? <==> t.latSum.Finite?) && (r.1.Finite? <==> t.lonSum.Finite?)
    ensures t.count > 0 && t.latSum.Finite? ==> r.0.value * t.count as real == t.latSum.value
    ensures t.count > 0 && t.lonSum.Finite? ==> r.1.value * t.count as real == t.lonSum.value
  {
    if t.count == 0 then DefaultCenter else (Div(t.latSum, t.count), Div(t.lonSum, t.count))
  }

  ghost function MapCenterSpec(filtered: map<string, seq<Point>>, vis: map<string, bool>): (Num, Num)
  {
    CenterOf(VisibleTally(filtered, vis))
  }

  /**
   * The nested loops of `mapCenter` in `src/App.jsx`: for each visible device, every filtered
   * point's coordinates are added to the sums and counted.
   */
  method MapCenter(filtered: map<string, seq<Point>>, vis: map<string, bool>) returns (lat: Num, lon: Num)
    ensures (lat, lon) == MapCenterSpec(filtered, vis)
  {
    var latSum, lonSum, count := Finite(0.0), Finite(0.0), 0;
    var todo := filtered.Keys;
    while todo != {}
      invariant todo <= filtered.Keys
      invariant Tally(latSum, lonSum, count) == TallyOver(filtered, vis, filtered.Keys - todo)
      decreases todo
    {
      var device :| device in todo;
      ghost var done := filtered.Keys - todo;
      todo := todo - {device};
      TallyOverPick(filtered, vis, filtered.Keys - todo, device);
      assert filtered.Keys - todo - {device} == done;
      ghost var before := Tally(latSum, lonSum, count);
      ZeroNeutral(before);
      if !Visible(vis, device) {
        continue;
      }
      var pts := filtered[device];
      for i := 0 to |pts|
        invariant Tally(latSum, lonSum, count) == Plus(before, TallyOf(pts[..i]))
      {
        assert pts[..i + 1][..i] == pts[..i];
        PlusAssociative(before, TallyOf(pts[..i]), Single(pts[i]));
        latSum := Add(latSum, pts[i].lat);
        lonSum := Add(lonSum, pts[i].lon);
        count := count + 1;
      }
      assert pts[..|pts|] == pts;
    }
    assert filtered.Keys - todo == filtered.Keys;
    if count == 0 {
      lat, lon := Finite(43.5), Finite(16.25);
    } else {
      lat, lon := Div(latSum, count), Div(lonSum, count);
    }
  }

  /** With no visible point left, the centre is the default `(43.5, 16.25)`. */
  lemma NothingVisibleGivesDefault(filtered: map<string, seq<Point>>, vis: map<string, bool>)
    requires forall d | d in filtered :: !Visible(vis, d) || filtered[d] == []
    ensures MapCenterSpec(filtered, vis) == (Finite(43.5), Finite(16.25))
  {
    CountZeroIff(filtered, vis, filtered.Keys);
  }

  /** The sum of the latitudes of a validated track, first point first. */
  function LatTotal(pts: seq<Point>): real
    requires Validated(pts)
  {
    if pts == [] then 0.0 else pts[0].lat.value + LatTotal(pts[1..])
  }

  /** The sum of the longitudes of a validated track, first point first. */
  function LonTotal(pts: seq<Point>): real
    requires Validated(pts)
  {
    if pts == [] then 0.0 else pts[0].lon.value + LonTotal(pts[1..])
  }

  lemma {:induction false} TotalsSnoc(pts: seq<Point>)
    requires Validated(pts) && pts != []
    ensures LatTotal(pts) == LatTotal(pts[..|pts| - 1]) + pts[|pts| - 1].lat.value
    ensures LonTotal(pts) == LonTotal(pts[..|pts| - 1]) + pts[|pts| - 1].lon.value
  {
    if |pts| > 1 {
      TotalsSnoc(pts[1..]);
      assert pts[1..][..|pts| - 2] == pts[..|pts| - 1][1..];
    }
  }

  /**
   * On a validated track the accumulators never become NaN: they hold the
   * exact coordinate sums and the number of points.
   */
  lemma {:induction false} TallyOfValidated(pts: seq<Point>)
    requires Validated(pts)
    ensures TallyOf(pts) == Tally(Finite(LatTotal(pts)), Finite(LonTotal(pts)), |pts|)
  {
    if pts != [] {
      var init := pts[..|pts| - 1];
      TallyOfValidated(init);
      TotalsSnoc(pts);
    }
  }

  /**
   * With a single visible device whose filtered track is validated and not
   * empty, the centre is the mean of that track's latitudes and longitudes.
   */
  lemma SingleDeviceMean(filtered: map<string, seq<Point>>, vis: map<string, bool>, device: string)
    requires device in filtered && Visible(vis, device)
    requires forall d | d in filtered && d != device :: !Visible(vis, d)
    requires Validated(filtered[device]) && filtered[device] != []
    ensures var pts := filtered[device];
      MapCenterSpec(filtered, vis) ==
        (Finite(LatTotal(pts) / |pts| as real), Finite(LonTotal(pts) / |pts| as real))
  {
    TallyOverPick(filtered, vis, filtered.Keys, device);
    HiddenAddNothing(filtered, vis, filtered.Keys - {device});
    ZeroNeutral(TallyOf(filtered[device]));
    TallyOfValidated(filtered[device]);
  }

  /** A single point gives the accumulators its coordinates and a count of one. */
  lemma TallyOfOne(p: Point)
    ensures TallyOf([p]) == Tally(Add(Finite(0.0), p.lat), Add(Finite(0.0), p.lon), 1)
  {
    assert [p][..0] == [];
  }

  /** Two devices: the sum of their two contributions. */
  lemma PairTally(filtered: map<string, seq<Point>>, vis: map<string, bool>, d1: string, d2: string)
    requires filtered.Keys == {d1, d2} && d1 != d2
    ensures VisibleTally(filtered, vis) == Plus(Plus(Zero, Contribution(filtered, vis, d2)), Contribution(filtered, vis, d1))
  {
    TallyOverPick(filtered, vis, filtered.Keys, d1);
    assert filtered.Keys - {d1} == {d2};
    TallyOverPick(filtered, vis, {d2}, d2);
    assert {d2} - {d2} == {};
  }

  /** Two visible devices holding one point each: the sums of the two points and a count of two. */
  lemma PairOfPoints(filtered: map<string, seq<Point>>, vis: map<string, bool>, d1: string, d2: string, p1: Point, p2: Point)
    requires filtered.Keys == {d1, d2} && d1 != d2
    requires filtered[d1] == [p1] && filtered[d2] == [p2]
    requires Visible(vis, d1) && Visible(vis, d2)
    ensures VisibleTally(filtered, vis) == Plus(Plus(Zero, TallyOf([p2])), TallyOf([p1]))
  {
    PairTally(filtered, vis, d1, d2);
  }

  /** One point `(1, 10)` on one visible device and `(3, 30)` on another give the centre `(2, 20)`. */
  lemma TwoDeviceExample(d1: string, d2: string, t1: int, t2: int)
    requires d1 != d2
    ensures var filtered := map[d1 := [Point(Finite(1.0), Finite(10.0), At(t1))],
                                d2 := [Point(Finite(3.0), Finite(30.0), At(t2))]];
      MapCenterSpec(filtered, map[d1 := true, d2 := true]) == (Finite(2.0), Finite(20.0))
  {
    var p1, p2 := Point(Finite(1.0), Finite(10.0), At(t1)), Point(Finite(3.0), Finite(30.0), At(t2));
    var filtered := map[d1 := [p1], d2 := [p2]];
    var vis := map[d1 := true, d2 := true];
    var t := VisibleTally(filtered, vis);
    assert t == Tally(Finite(4.0), Finite(40.0), 2) by {
      PairOfPoints(filtered, vis, d1, d2, p1, p2);
      TallyOfOne(p1);
      TallyOfOne(p2);
    }
    assert CenterOf(t) == (Finite(2.0), Finite(20.0)) by {
      assert 2 as real == 2.0;
      assert 4.0 / 2.0 == 2.0 && 40.0 / 2.0 == 20.0;
    }
  }
}
