/** Two concrete layouts of the bottom-left-fill packer, stated against its
    specification: a lone job lands in the bottom-left corner, and a second
    job that cannot fit beside the first is dropped. */
module Scenarios {
  import opened LayoutTypes
  import opened AreaSort
  import opened LayoutOptimizer

  const NoMargins := Margins(0, 0, 0, 0)

  /** One 100 x 100 job, quantity 1, no rotation, on a 200 x 200 sheet without
      margins or bleed: it is placed unrotated at (0, 0) and a quarter of
      the sheet is used. */
  lemma {:induction false} SingleJobAtOrigin()
    ensures var job := LayoutItem("a", 100, 100, 1, false);
      var p := PlacedItem(job, 0, 0, 0, 100, 100);
      && BottomLeftFill(SortByAreaDescending(Expand([job])), 200, 200, 0, NoMargins) == [p]
      && WorkingArea(200, 200, NoMargins) - UsedArea([p]) == 30000
  {
    var job := LayoutItem("a", 100, 100, 1, false);
    var p := PlacedItem(job, 0, 0, 0, 100, 100);
    assert [job][..0] == [];
    assert Copies(job) == [job];
    assert Expand([job]) == [job];
    assert SortByAreaDescending([job]) == [job];
    assert FirstFreeAnchor(0, 0, Orientation(100, 100, 0), 0, 200, 200, NoMargins, []);
    assert IsFirstFit(job, 200, 200, InflateAll([], 0), 0, NoMargins, Some(p));
    FirstFitIsTheAnswer(job, 200, 200, InflateAll([], 0), 0, NoMargins, Some(p));
  }

  /** Two 60 x 60 units on a 100 x 100 sheet without margins or bleed: the
      first is placed at (0, 0); every anchor of the second overlaps it, in
      either orientation, so the second is dropped. */
  lemma {:induction false} SecondJobDropped()
    ensures var job := LayoutItem("b", 60, 60, 2, true);
      var p := PlacedItem(UnitCopy(job), 0, 0, 0, 60, 60);
      BottomLeftFill(SortByAreaDescending(Expand([job])), 100, 100, 0, NoMargins) == [p]
  {
    var job := LayoutItem("b", 60, 60, 2, true);
    var unit := UnitCopy(job);
    var p := PlacedItem(unit, 0, 0, 0, 60, 60);
    assert [job][..0] == [];
    assert Copies(job) == [unit, unit];
    assert Expand([job]) == [unit, unit];
    assert SortByAreaDescending([unit, unit]) == [unit, unit] by {
      assert [unit, unit][1..] == [unit];
      assert SortByAreaDescending([unit]) == [unit];
    }
    var units := [unit, unit];
    assert units[..1] == [unit] && units[..1][..0] == [];
    assert FirstFreeAnchor(0, 0, Orientation(60, 60, 0), 0, 100, 100, NoMargins, []);
    assert BottomLeftFill(units[..1], 100, 100, 0, NoMargins) == [p] by {
      assert IsFirstFit(unit, 100, 100, InflateAll([], 0), 0, NoMargins, Some(p));
      FirstFitIsTheAnswer(unit, 100, 100, InflateAll([], 0), 0, NoMargins, Some(p));
    }
    var occupied := InflateAll([p], 0);
    assert occupied == [Box(0, 0, 60, 60)];
    forall o | o in Orientations(unit)
      ensures Exhausted(o, 0, 100, 100, NoMargins, occupied)
    {
      forall ax, ay | InScan(ax, ay, o, 0, 100, 100, NoMargins)
        ensures Blocked(ax, ay, o, 0, occupied)
      {
        assert Intersects(Box(ax, ay, 60, 60), occupied[0]);
      }
    }
    assert IsFirstFit(unit, 100, 100, occupied, 0, NoMargins, None);
    FirstFitIsTheAnswer(unit, 100, 100, occupied, 0, NoMargins, None);
  }
}
