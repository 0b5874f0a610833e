/** How one change of a level changes the list of the best `k` levels. */
module OfiView {
  import opened Levels
  import opened LadderSpec

  function Insert(v: seq<Level>, i: nat, l: Level): seq<Level>
    requires i <= |v|
  {
    v[..i] + [l] + v[i..]
  }

  function Erase(v: seq<Level>, i: nat): seq<Level>
    requires i < |v|
  {
    v[..i] + v[i + 1..]
  }

  /** Where `std::lower_bound` stops: after the levels better than `p`. */
  predicate IsLowerBound(isBid: bool, v: seq<Level>, p: int, i: nat) {
    && i <= |v|
    && (forall j :: 0 <= j < i ==> Better(isBid, v[j].price, p))
    && (forall j :: i <= j < |v| ==> !Better(isBid, v[j].price, p))
  }

  lemma LowerBoundFinds(isBid: bool, v: seq<Level>, p: int, i: nat)
    requires Sorted(isBid, v) && IsLowerBound(isBid, v, p, i)
    ensures InView(v, p) <==> i < |v| && v[i].price == p
  {
  }

  lemma SamePrices(v: seq<Level>, w: seq<Level>, x: int)
    requires |v| == |w| && forall j :: 0 <= j < |v| ==> v[j].price == w[j].price
    ensures InView(v, x) <==> InView(w, x)
  {
  }

  /** The level is in the view and keeps a quantity. */
  lemma ReplaceQty(isBid: bool, m: map<int, int>, k: nat, v: seq<Level>, i: nat, q: int)
    requires IsTop(isBid, m, k, v) && i < |v|
    ensures IsTop(isBid, m[v[i].price := q], k, v[i := Level(v[i].price, q)])
  {
    var p, m', w := v[i].price, m[v[i].price := q], v[i := Level(v[i].price, q)];
    forall x | x in m' && !InView(w, x)
      ensures |w| == k && Worse(isBid, w, x)
    {
      SamePrices(v, w, x);
      assert w[i].price == p;
    }
  }

  lemma ErasePrices(isBid: bool, v: seq<Level>, i: nat)
    requires Sorted(isBid, v) && i < |v|
    ensures Sorted(isBid, Erase(v, i))
    ensures forall x :: InView(Erase(v, i), x) <==> InView(v, x) && x != v[i].price
    ensures forall j :: 0 <= j < |Erase(v, i)| ==> Erase(v, i)[j] == if j < i then v[j] else v[j + 1]
  {
    var e := Erase(v, i);
    forall x
      ensures InView(e, x) <==> InView(v, x) && x != v[i].price
    {
      if j :| 0 <= j < |v| && v[j].price == x && j != i {
        assert e[if j < i then j else j - 1].price == x;
      }
    }
  }

  /** What is left after an erasure holds the best of what is left of the map. */
  lemma EraseLeaves(isBid: bool, m: map<int, int>, k: nat, v: seq<Level>, i: nat)
    requires IsTop(isBid, m, k, v) && i < |v|
    ensures var e, m' := Erase(v, i), m - {v[i].price};
            && Sorted(isBid, e) && Holds(m', e)
            && forall x :: x in m' && !InView(e, x) ==> Worse(isBid, e, x) && |v| == k
  {
    var e, m' := Erase(v, i), m - {v[i].price};
    ErasePrices(isBid, v, i);
    forall x | x in m' && !InView(e, x)
      ensures Worse(isBid, e, x) && |v| == k
    {
      assert !InView(v, x);
    }
  }

  lemma InViewAppend(v: seq<Level>, l: Level, x: int)
    ensures InView(v + [l], x) <==> InView(v, x) || l.price == x
  {
    if i :| 0 <= i < |v| && v[i].price == x {
      assert (v + [l])[i].price == x;
    }
    assert (v + [l])[|v|] == l;
  }

  lemma NextGoesLast(isBid: bool, m: map<int, int>, k: nat, e: seq<Level>, r: int)
    requires Sorted(isBid, e) && Holds(m, e) && |e| + 1 == k && r in m && !InView(e, r)
    requires forall x :: x in m && !InView(e, x) ==> Worse(isBid, e, x)
    requires if e == [] then IsBestOf(isBid, m, r) else IsNextAfter(isBid, m, e[|e| - 1].price, r)
    requires 0 !in m
    ensures IsTop(isBid, m, k, e + [Level(r, m[r])])
  {
    var w := e + [Level(r, m[r])];
    forall x | x in m && !InView(w, x)
      ensures Worse(isBid, w, x)
    {
      InViewAppend(e, Level(r, m[r]), x);
    }
  }

  /** The level is in the view and goes away; `r` is the best level beyond what is left. */
  lemma EraseRefill(isBid: bool, m: map<int, int>, k: nat, v: seq<Level>, i: nat, r: int)
    requires IsTop(isBid, m, k, v) && i < |v| && 0 !in m
    requires var e, m' := Erase(v, i), m - {v[i].price};
             if e == [] then IsBestOf(isBid, m', r) else IsNextAfter(isBid, m', e[|e| - 1].price, r)
    ensures r == 0 ==> IsTop(isBid, m - {v[i].price}, k, Erase(v, i))
    ensures r != 0 ==> r in m && r != v[i].price && |v| == k
    ensures r != 0 ==> IsTop(isBid, m - {v[i].price}, k, Erase(v, i) + [Level(r, m[r])])
  {
    EraseLeaves(isBid, m, k, v, i);
    var e, m' := Erase(v, i), m - {v[i].price};
    if r == 0 {
      assert forall x :: x in m' ==> InView(e, x);
    } else {
      assert !InView(e, r);
      NextGoesLast(isBid, m', k, e, r);
    }
  }

  /** A level enters the view at its place. */
  lemma InsertPrices(isBid: bool, v: seq<Level>, i: nat, l: Level)
    requires Sorted(isBid, v) && IsLowerBound(isBid, v, l.price, i) && !InView(v, l.price)
    ensures Sorted(isBid, Insert(v, i, l))
    ensures forall x :: InView(Insert(v, i, l), x) <==> InView(v, x) || x == l.price
    ensures forall j :: 0 <= j <= |v| ==>
              Insert(v, i, l)[j] == if j < i then v[j] else if j == i then l else v[j - 1]
  {
    var w := Insert(v, i, l);
    forall x
      ensures InView(w, x) <==> InView(v, x) || x == l.price
    {
      assert w[i] == l;
      if j :| 0 <= j < |v| && v[j].price == x {
        assert w[if j < i then j else j + 1].price == x;
      }
    }
  }

  lemma InsertFits(isBid: bool, m: map<int, int>, k: nat, v: seq<Level>, i: nat, l: Level)
    requires IsTop(isBid, m, k, v) && |v| < k
    requires IsLowerBound(isBid, v, l.price, i) && !InView(v, l.price)
    ensures l.price !in m && IsTop(isBid, m[l.price := l.qty], k, Insert(v, i, l))
  {
    InsertPrices(isBid, v, i, l);
  }

  /** A level enters a full view and pushes out the worst one. */
  lemma InsertEvict(isBid: bool, m: map<int, int>, k: nat, v: seq<Level>, i: nat, l: Level)
    requires IsTop(isBid, m, k, v) && |v| == k > 0 && Better(isBid, l.price, v[k - 1].price)
    requires IsLowerBound(isBid, v, l.price, i) && !InView(v, l.price)
    ensures l.price !in m && i < k && Insert(v, i, l)[k] == v[k - 1]
    ensures IsTop(isBid, m[l.price := l.qty], k, Insert(v, i, l)[..k])
  {
    InsertPrices(isBid, v, i, l);
    var w := Insert(v, i, l);
    var m' := m[l.price := l.qty];
    assert w == w[..k] + [w[k]];
    forall x | x in m' && !InView(w[..k], x)
      ensures Worse(isBid, w[..k], x)
    {
      InViewAppend(w[..k], w[k], x);
      assert x == w[k].price || Worse(isBid, w, x);
    }
  }

  /** A level outside the view changes and stays outside. */
  lemma StaysOutside(isBid: bool, m: map<int, int>, k: nat, v: seq<Level>, p: int, q: int)
    requires IsTop(isBid, m, k, v) && !InView(v, p)
    requires q == 0 || (|v| == k && (k > 0 ==> !Better(isBid, p, v[k - 1].price)))
    ensures IsTop(isBid, Put(m, p, q), k, v)
  {
    if q != 0 && k > 0 {
      assert v[k - 1].price != p;
      assert Worse(isBid, v, p);
    }
  }

  // ---------------------------------------------------------------- rebuilding by walking

  /** A walk from the best level outwards: `view` has been visited and `p` comes next, or is 0. */
  ghost predicate Walking(isBid: bool, m: map<int, int>, view: seq<Level>, p: int) {
    && Sorted(isBid, view) && Holds(m, view)
    && (forall x :: x in m && !InView(view, x) ==> Worse(isBid, view, x))
    && if view == [] then IsBestOf(isBid, m, p) else IsNextAfter(isBid, m, view[|view| - 1].price, p)
  }

  lemma WalkStep(isBid: bool, m: map<int, int>, view: seq<Level>, p: int, next: int)
    requires Walking(isBid, m, view, p) && p in m && IsNextAfter(isBid, m, p, next) && 0 !in m
    ensures Walking(isBid, m, view + [Level(p, m[p])], next)
  {
    var w := view + [Level(p, m[p])];
    assert Worse(isBid, view, p) by {
      assert view != [] ==> Better(isBid, view[|view| - 1].price, p);
    }
    forall x | x in m && !InView(w, x)
      ensures Worse(isBid, w, x)
    {
      InViewAppend(view, Level(p, m[p]), x);
    }
  }

  /** A walk that ran out of levels or of room has built the best `k` levels. */
  lemma WalkEnds(isBid: bool, m: map<int, int>, view: seq<Level>, p: int, k: nat)
    requires Walking(isBid, m, view, p) && |view| <= k && 0 !in m
    requires p == 0 || |view| == k
    ensures view == Top(isBid, m, k)
  {
    assert p == 0 ==> forall x :: x in m ==> InView(view, x);
    TopIsUnique(isBid, m, k, view);
  }
}
