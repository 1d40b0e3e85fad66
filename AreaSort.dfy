/** The ordering step of the packer: a stable sort of unit items by
    non-increasing nominal area. The source calls the JavaScript built-in
    `Array.prototype.sort` with the comparator `area(b) - area(a)`; that sort
    is stable, so items of equal area keep their input order. It is modelled
    here as a stable insertion sort on values. */
module AreaSort {
  import opened LayoutTypes

  ghost predicate NonIncreasingArea(s: seq<LayoutItem>)
  {
    forall i, j :: 0 <= i < j < |s| ==> Area(s[i]) >= Area(s[j])
  }

  /** The items of `s` whose area is `a`, in the order they occur in `s`. */
  function WithArea(s: seq<LayoutItem>, a: int): seq<LayoutItem>
  {
    if s == [] then []
    else if Area(s[0]) == a then [s[0]] + WithArea(s[1..], a)
    else WithArea(s[1..], a)
  }

  /** Inserts `x` in front of the first item whose area is not larger than
      its own, so that `x` precedes the items of equal area that follow it
      in the input. */
  function InsertByArea(x: LayoutItem, t: seq<LayoutItem>): (r: seq<LayoutItem>)
    ensures multiset(r) == multiset(t) + multiset{x}
  {
    if t == [] || Area(t[0]) <= Area(x) then [x] + t
    else
      assert t == [t[0]] + t[1..];
      [t[0]] + InsertByArea(x, t[1..])
  }

  /** `expandedItems.sort((a, b) => area(b) - area(a))`. */
  function SortByAreaDescending(s: seq<LayoutItem>): (r: seq<LayoutItem>)
    ensures multiset(r) == multiset(s)
  {
    if s == [] then []
    else
      assert s == [s[0]] + s[1..];
      InsertByArea(s[0], SortByAreaDescending(s[1..]))
  }

  /** Every item of the insertion result is bounded by `b` when `x` and every
      item of `t` are. */
  lemma {:induction false} InsertByAreaBounded(x: LayoutItem, t: seq<LayoutItem>, b: int)
    requires Area(x) <= b
    requires forall i :: 0 <= i < |t| ==> Area(t[i]) <= b
    ensures forall i :: 0 <= i < |InsertByArea(x, t)| ==> Area(InsertByArea(x, t)[i]) <= b
  {
    if t != [] && Area(t[0]) > Area(x) {
      InsertByAreaBounded(x, t[1..], b);
    }
  }

  lemma {:induction false} InsertByAreaSorted(x: LayoutItem, t: seq<LayoutItem>)
    requires NonIncreasingArea(t)
    ensures NonIncreasingArea(InsertByArea(x, t))
  {
    if t != [] && Area(t[0]) > Area(x) {
      InsertByAreaSorted(x, t[1..]);
      InsertByAreaBounded(x, t[1..], Area(t[0]));
    }
  }

  /** The order in which the driver tries the units: non-increasing area. */
  lemma {:induction false} SortByAreaDescendingSorted(s: seq<LayoutItem>)
    ensures NonIncreasingArea(SortByAreaDescending(s))
  {
    if s != [] {
      SortByAreaDescendingSorted(s[1..]);
      InsertByAreaSorted(s[0], SortByAreaDescending(s[1..]));
    }
  }

  lemma {:induction false} InsertByAreaWithArea(x: LayoutItem, t: seq<LayoutItem>, a: int)
    ensures WithArea(InsertByArea(x, t), a) ==
            (if Area(x) == a then [x] + WithArea(t, a) else WithArea(t, a))
  {
    if t == [] || Area(t[0]) <= Area(x) {
      assert InsertByArea(x, t)[1..] == t;
    } else {
      InsertByAreaWithArea(x, t[1..], a);
      var r := InsertByArea(x, t);
      assert r == [t[0]] + InsertByArea(x, t[1..]);
      assert r[1..] == InsertByArea(x, t[1..]);
      if Area(x) == a {
        assert Area(t[0]) != a;
      }
    }
  }

  /** Stability: for every area value, the items of that area appear in the
      sorted sequence in exactly their input order. Together with the
      function's permutation contract and `SortByAreaDescendingSorted`, this
      fixes the result. */
  lemma {:induction false} SortByAreaDescendingIsStable(s: seq<LayoutItem>, a: int)
    ensures WithArea(SortByAreaDescending(s), a) == WithArea(s, a)
  {
    if s != [] {
      SortByAreaDescendingIsStable(s[1..], a);
      InsertByAreaWithArea(s[0], SortByAreaDescending(s[1..]), a);
    }
  }
}
