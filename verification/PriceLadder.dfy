/** The flat-array ladder of src/price_ladder.cpp, proved to be the map of `LadderSpec`. */
module PriceLadder {
  import opened Int64
  import opened Wrappers
  import opened LadderSpec
  import opened Levels

  // ---------------------------------------------------------------- cells against the map

  /** Every cell holds the map's quantity at the cell's price, and no level lies elsewhere. */
  ghost predicate Represents(c: Config, q: seq<int>, base: int, m: map<int, int>)
    requires c.tick > 0
  {
    && |q| == c.Size()
    && (forall i :: 0 <= i < |q| ==> q[i] == Get(m, PriceAt(base, c.tick, i)))
    && (forall p :: p in m ==> c.PriceOk(p) && c.InWindow(base, p) && 0 < m[p] <= MAX)
  }

  /** A level's cell. */
  lemma CellHolds(c: Config, q: seq<int>, base: int, m: map<int, int>, p: int)
    requires c.Valid() && base % c.tick == 0 && Represents(c, q, base, m)
    requires p % c.tick == 0 && c.InWindow(base, p)
    ensures var i := (p - base) / c.tick; 0 <= i < |q| && q[i] == Get(m, p) && PriceAt(base, c.tick, i) == p
  {
    CellOf(c, base, p);
  }

  lemma RepresentsPut(c: Config, q: seq<int>, base: int, m: map<int, int>, p: int, v: int)
    requires c.Valid() && base % c.tick == 0 && Represents(c, q, base, m)
    requires c.PriceOk(p) && c.InWindow(base, p) && 0 <= v <= MAX
    ensures 0 <= (p - base) / c.tick < |q|
    ensures Represents(c, q[(p - base) / c.tick := v], base, Put(m, p, v))
  {
    CellHolds(c, q, base, m, p);
    var k := (p - base) / c.tick;
    forall i | 0 <= i < |q|
      ensures q[k := v][i] == Get(Put(m, p, v), PriceAt(base, c.tick, i))
    {
      PriceAtMonotone(base, c.tick, i, k);
    }
  }

  /** The array after the window moved by `s` cells. */
  ghost predicate Shifted(q: seq<int>, r: seq<int>, s: int) {
    |r| == |q| && forall i :: 0 <= i < |r| ==> r[i] == if 0 <= i + s < |q| then q[i + s] else 0
  }

  lemma RepresentsShift(c: Config, q: seq<int>, r: seq<int>, base: int, s: int, m: map<int, int>)
    requires c.Valid() && base % c.tick == 0 && Represents(c, q, base, m) && Shifted(q, r, s)
    ensures Represents(c, r, PriceAt(base, c.tick, s), Restrict(c, m, PriceAt(base, c.tick, s)))
  {
    var base' := PriceAt(base, c.tick, s);
    MultipleOf(c.tick, s);
    SumOfMultiples(c.tick, base, s * c.tick);
    forall i | 0 <= i < |r|
      ensures r[i] == Get(Restrict(c, m, base'), PriceAt(base', c.tick, i))
    {
      PriceOf(c, base', i);
      var p := PriceAt(base', c.tick, i);
      assert p == PriceAt(base, c.tick, i + s) by {
        assert (i + s) * c.tick == i * c.tick + s * c.tick;
      }
      CellOf(c, base, p);
      PriceAtMonotone(base, c.tick, i + s, (p - base) / c.tick);
    }
  }

  // ---------------------------------------------------------------- cached indices

  ghost function CountActive(q: seq<int>): nat {
    if q == [] then 0
    else CountActive(q[..|q| - 1]) + if q[|q| - 1] > 0 then 1 else 0
  }

  /** `h` is the highest active index, or -1. */
  ghost predicate IsHigh(q: seq<int>, h: int) {
    && -1 <= h < |q| && (h >= 0 ==> q[h] > 0)
    && forall i :: h < i < |q| ==> q[i] == 0
  }

  /** `l` is the lowest active index, or -1. */
  ghost predicate IsLow(q: seq<int>, l: int) {
    && -1 <= l < |q| && (l >= 0 ==> q[l] > 0)
    && forall i :: 0 <= i < |q| && (l < 0 || i < l) ==> q[i] == 0
  }

  lemma {:induction false} CountUpdate(q: seq<int>, k: int, v: int)
    requires 0 <= k < |q|
    ensures CountActive(q[k := v]) ==
            CountActive(q) - (if q[k] > 0 then 1 else 0) + (if v > 0 then 1 else 0)
  {
    var n := |q| - 1;
    if k == n {
      assert q[k := v][..n] == q[..n];
    } else {
      assert q[k := v][..n] == q[..n][k := v];
      CountUpdate(q[..n], k, v);
    }
  }

  lemma {:induction false} CountZero(q: seq<int>)
    requires forall i :: 0 <= i < |q| ==> q[i] >= 0
    ensures CountActive(q) <= |q|
    ensures CountActive(q) == 0 <==> forall i :: 0 <= i < |q| ==> q[i] == 0
  {
    if q == [] {
    } else {
      CountZero(q[..|q| - 1]);
    }
  }

  /** The active cells in ascending order. */
  ghost function Listing(q: seq<int>, base: int, tick: int): seq<Level> {
    if q == [] then []
    else
      var n := |q| - 1;
      Listing(q[..n], base, tick) + if q[n] > 0 then [Level(PriceAt(base, tick, n), q[n])] else []
  }

  lemma {:induction false} ListingAscends(q: seq<int>, base: int, tick: int)
    requires tick > 0
    ensures var v := Listing(q, base, tick);
            && |v| == CountActive(q) && Sorted(false, v)
            && (forall j :: 0 <= j < |v| ==> v[j].price < PriceAt(base, tick, |q|))
  {
    if q == [] {
    } else {
      ListingAscends(q[..|q| - 1], base, tick);
      PriceAtMonotone(base, tick, |q| - 1, |q|);
    }
  }

  lemma {:induction false} ListingCells(q: seq<int>, base: int, tick: int)
    requires tick > 0
    ensures var v := Listing(q, base, tick);
            && (forall i :: 0 <= i < |q| && q[i] > 0 ==> InView(v, PriceAt(base, tick, i)))
            && (forall j :: 0 <= j < |v| ==>
              exists i :: 0 <= i < |q| && q[i] > 0 && v[j] == Level(PriceAt(base, tick, i), q[i]))
  {
    if q == [] {
    } else {
      var n := |q| - 1;
      var u, v := Listing(q[..n], base, tick), Listing(q, base, tick);
      ListingCells(q[..n], base, tick);
      forall i | 0 <= i < |q| && q[i] > 0
        ensures InView(v, PriceAt(base, tick, i))
      {
        if i < n {
          assert q[..n][i] > 0;
          var j :| 0 <= j < |u| && u[j].price == PriceAt(base, tick, i);
          assert v[j] == u[j];
        } else {
          assert v[|u|].price == PriceAt(base, tick, n);
        }
      }
      forall j | 0 <= j < |v|
        ensures exists i :: 0 <= i < |q| && q[i] > 0 && v[j] == Level(PriceAt(base, tick, i), q[i])
      {
        if j < |u| {
          assert v[j] == u[j];
          var i :| 0 <= i < n && q[..n][i] > 0 && u[j] == Level(PriceAt(base, tick, i), q[..n][i]);
          assert q[i] == q[..n][i];
        }
      }
    }
  }

  lemma ListingIsComplete(c: Config, q: seq<int>, base: int, m: map<int, int>)
    requires c.Valid() && base % c.tick == 0 && Represents(c, q, base, m)
    ensures Lists(false, m, Listing(q, base, c.tick)) && CountActive(q) == |m|
  {
    var v := Listing(q, base, c.tick);
    ListingAscends(q, base, c.tick);
    ListingCells(q, base, c.tick);
    forall p | p in m
      ensures InView(v, p)
    {
      CellHolds(c, q, base, m, p);
    }
    ListsIsTop(false, m, v);
  }

  // ---------------------------------------------------------------- the class

  function Max(a: int32, b: int32): int32 { if a < b then b else a }

  lemma ProductGrows(q: int, t: int)
    requires q >= 0 && t >= 1
    ensures q * t >= q
  {
    assert q * t == q * (t - 1) + q;
  }

  lemma QuotientSmaller(e: int, t: int)
    requires e >= 0 && t > 0
    ensures 0 <= e / t <= e
  {
    var q := e / t;
    assert q * t <= e;
    ProductGrows(q, t);
  }

  lemma ExactCDiv(d: int, t: int)
    requires t > 0 && d % t == 0
    ensures CDiv(d, t) * t == d
    ensures d >= 0 ==> 0 <= CDiv(d, t) <= d
    ensures d <= 0 ==> d <= CDiv(d, t) <= 0
  {
    var e := if d >= 0 then d else -d;
    SumOfMultiples(t, 0, d);
    assert e == (e / t) * t;
    QuotientSmaller(e, t);
  }

  lemma QuotientBelow(e: int, t: int)
    requires e >= 0 && t > 1
    ensures 2 * (e / t) <= e
  {
    var q := e / t;
    assert q * t <= e;
    ProductGrows(q, t - 1);
    assert q * t == q * (t - 1) + q;
  }

  lemma QuotientBounds(e: int, t: int)
    requires e >= 0 && t > 0
    ensures 0 <= e / t <= e && (e / t) * t <= e < (e / t + 1) * t
  {
    QuotientSmaller(e, t);
    assert (e / t + 1) * t == (e / t) * t + t;
  }

  class PriceLadder {
    const tickSize: int64
    const halfRange: int32
    const size: int32
    var basePrice: int64
    var initialized: bool
    var qtys: array<int64>
    var count: int
    var bestHighIdx: int32
    var bestLowIdx: int32
    ghost var levels: map<int, int>

    ghost function Cfg(): Config { Config(tickSize, halfRange) }

    ghost predicate Shape()
      reads this
    {
      Cfg().Valid() && size == Cfg().Size() && qtys.Length == size
    }

    ghost predicate CellsOk()
      requires Shape()
      reads this, qtys
    {
      && (forall i :: 0 <= i < size ==> qtys[i] >= 0)
      && (initialized ==> Cfg().BaseOk(basePrice) && Represents(Cfg(), qtys[..], basePrice, levels))
      && (!initialized ==> levels == map[] && forall i :: 0 <= i < size ==> qtys[i] == 0)
    }

    ghost predicate Valid()
      reads this, qtys
    {
      && Shape() && CellsOk()
      && count == CountActive(qtys[..])
      && IsHigh(qtys[..], bestHighIdx) && IsLow(qtys[..], bestLowIdx)
    }

    /** The abstract value. */
    ghost function Abs(): Ladder
      reads this
    {
      Ladder(if initialized then Some(basePrice) else None, levels)
    }

    /** `new PriceLadder(tick, half)` with the exceptions of the source as failures. The span is not
        checked: a ladder whose span leaves 64 bits is made too, but its window cannot be computed. */
    static method Make(tick: int64, half: int32) returns (r: Result<PriceLadder>)
      ensures r.Success? <==> tick > 0 && half >= 0 && 2 * half + 1 <= 0x7FFF_FFFF
      ensures r.Success? ==> fresh(r.value) && fresh(r.value.qtys)
      ensures r.Success? ==> r.value.Cfg() == Config(tick, half) && r.value.Abs() == Ladder(None, map[])
      ensures r.Success? && Config(tick, half).Valid() ==> r.value.Valid()
    {
      if tick <= 0 {
        return Failure("PriceLadder: tickSizeArg must be positive");
      }
      if half < 0 || half > (INT32_MAX - 1) / 2 {
        return Failure("PriceLadder: halfRangeArg out of range");
      }
      var l := new PriceLadder(tick, half);
      return Success(l);
    }

    constructor (tick: int64, half: int32)
      requires Config(tick, half).Accepted()
      ensures Cfg() == Config(tick, half) && Abs() == EMPTY && fresh(qtys)
      ensures Config(tick, half).Valid() ==> Valid()
    {
      tickSize := tick;
      halfRange := half;
      size := half * 2 + 1;
      basePrice, initialized, count, bestHighIdx, bestLowIdx := 0, false, 0, -1, -1;
      levels := map[];
      qtys := new int64[half * 2 + 1](_ => 0);
      new;
      CountZero(qtys[..]);
    }

    // -------------------------------------------------------------- window arithmetic

    function ToIdx(price: int64): int
      requires Shape()
      reads this
    {
      CDiv(price - basePrice, tickSize)
    }

    function ToPrice(idx: int): int
      reads this
    {
      basePrice + idx * tickSize
    }

    lemma WindowTest(offset: int)
      requires Shape()
      ensures offset >= 0 ==> (offset / tickSize < size <==> offset < Cfg().Size() * tickSize)
    {
      if offset >= 0 {
        var k, t := offset / tickSize, tickSize as int;
        assert offset == k * t + offset % t;
        if k < size {
          assert (k + 1) * t <= size * t by { PriceAtMonotone(0, t, k + 1, size); }
        } else {
          assert size * t <= k * t by { PriceAtMonotone(0, t, size, k); }
        }
      }
    }

    /** Any price whose distance from the window fits in 64 bits may be asked about. */
    predicate InRange(price: int64)
      requires Shape() && (initialized ==> Fits(price - basePrice))
      reads this
      ensures InRange(price) == Abs().InRange(Cfg(), price)
    {
      WindowTest(price - basePrice);
      if !initialized then false
      else
        var offset: int64 := price - basePrice;
        if offset < 0 then false
        else CDiv(offset, tickSize) < size
    }

    function WindowLow(): int
      reads this
    {
      if initialized then basePrice else 0
    }

    function WindowHigh(): int
      reads this
    {
      if initialized then basePrice + (size - 1) * tickSize else 0
    }

    // -------------------------------------------------------------- moving the window

    /** `memmove`: source and target may overlap. */
    static method Memmove(a: array<int64>, dst: int, src: int, n: int)
      requires 0 <= n && 0 <= dst <= dst + n <= a.Length && 0 <= src <= src + n <= a.Length
      modifies a
      ensures forall i :: 0 <= i < a.Length ==>
                a[i] == if dst <= i < dst + n then old(a[i - dst + src]) else old(a[i])
    {
      forall i | 0 <= i < n {
        a[dst + i] := a[src + i];
      }
      forall i | dst <= i < dst + n
        ensures a[i] == old(a[i - dst + src])
      {
        assert a[dst + (i - dst)] == old(a[src + (i - dst)]);
      }
    }

    static method Memset0(a: array<int64>, dst: int, n: int)
      requires 0 <= n && 0 <= dst <= dst + n <= a.Length
      modifies a
      ensures forall i :: 0 <= i < a.Length ==> a[i] == if dst <= i < dst + n then 0 else old(a[i])
    {
      forall i | dst <= i < dst + n {
        a[i] := 0;
      }
    }

    method InitCenter(price: int64)
      requires Valid() && !initialized && Cfg().PriceOk(price)
      modifies this`basePrice, this`initialized
      ensures Valid() && initialized && basePrice == Cfg().Centre(price)
      ensures levels == old(levels)
    {
      CentreOk(Cfg(), price);
      SpanParts(Cfg());
      var rounded: int64 := CDiv(price, tickSize) * tickSize;
      var reach: int64 := halfRange * tickSize;
      basePrice := rounded - reach;
      initialized := true;
    }

    method RebuildBestIndices()
      requires Shape() && forall i :: 0 <= i < size ==> qtys[i] >= 0
      modifies this`count, this`bestHighIdx, this`bestLowIdx
      ensures count == CountActive(qtys[..])
      ensures IsHigh(qtys[..], bestHighIdx) && IsLow(qtys[..], bestLowIdx)
    {
      bestHighIdx := -1;
      bestLowIdx := -1;
      count := 0;
      var i: int32 := 0;
      while i < size
        invariant 0 <= i <= size
        invariant count == CountActive(qtys[..i])
        invariant IsHigh(qtys[..i], bestHighIdx) && IsLow(qtys[..i], bestLowIdx)
      {
        assert qtys[..i + 1][..i] == qtys[..i];
        if qtys[i] > 0 {
          count := count + 1;
          bestHighIdx := Max(bestHighIdx, i);
          if bestLowIdx < 0 {
            bestLowIdx := i;
          }
        }
        i := i + 1;
      }
      assert qtys[..size] == qtys[..];
    }

    /** The window moved up: the cells move down. */
    static method ShiftDown(a: array<int64>, size: int32, shift: int32)
      requires size == a.Length && 0 < shift < size
      modifies a
      ensures Shifted(old(a[..]), a[..], shift)
    {
      var keep: int32 := size - shift;
      Memmove(a, 0, shift, keep);
      Memset0(a, keep, shift);
    }

    /** The window moved down: the cells move up. */
    static method ShiftUp(a: array<int64>, size: int32, shift: int32)
      requires size == a.Length && -size < shift < 0
      modifies a
      ensures Shifted(old(a[..]), a[..], shift)
    {
      var keep: int32 := size + shift;
      Memmove(a, -shift, 0, keep);
      Memset0(a, 0, -shift);
    }

    /** Slides the array under a window that moved by `shift` cells: up, down, or past
        everything. */
    static method ShiftCells(a: array<int64>, size: int32, shift: int64)
      requires size == a.Length && -MAX <= shift && shift != 0
      modifies a
      ensures Shifted(old(a[..]), a[..], shift)
    {
      if shift > 0 && shift < size {
        ShiftDown(a, size, shift);
      } else if shift < 0 && -shift < size {
        ShiftUp(a, size, shift);
      } else {
        Memset0(a, 0, size);
      }
    }

    /** The second half of `Recenter`: the window moves by `shift` cells to `newBase`. */
    method MoveWindow(newBase: int64, shift: int64)
      requires Valid() && initialized && Cfg().BaseOk(newBase) && shift != 0 && -MAX <= shift
      requires newBase == PriceAt(basePrice, tickSize, shift)
      modifies this`basePrice, this`count, this`bestHighIdx, this`bestLowIdx, this`levels, qtys
      ensures Valid() && initialized && basePrice == newBase
      ensures levels == Restrict(Cfg(), old(levels), newBase)
    {
      ghost var cells := qtys[..];
      ShiftCells(qtys, size, shift);
      RepresentsShift(Cfg(), cells, qtys[..], basePrice, shift, levels);
      basePrice := newBase;
      levels := Restrict(Cfg(), levels, newBase);
      assert forall i :: 0 <= i < size ==> qtys[i] == qtys[..][i];
      RebuildBestIndices();
    }

    /** The distance between two bases is a whole number of cells, also when it is negative. */
    lemma ShiftSize(distance: int64)
      requires Shape() && initialized && Cfg().BaseOk(basePrice)
      requires Cfg().BaseOk(basePrice + distance)
      ensures Fits(CDiv(distance, tickSize)) && CDiv(distance, tickSize) >= -MAX
      ensures PriceAt(basePrice, tickSize, CDiv(distance, tickSize)) == basePrice + distance
    {
      SpanParts(Cfg());
      SumOfMultiples(tickSize, basePrice + distance, basePrice);
      ExactCDiv(distance, tickSize);
    }

    method Recenter(price: int64)
      requires Valid() && initialized && Cfg().PriceOk(price) && !Abs().InRange(Cfg(), price)
      modifies this`basePrice, this`count, this`bestHighIdx, this`bestLowIdx, this`levels, qtys
      ensures Valid() && initialized && basePrice == Cfg().Centre(price)
      ensures levels == Restrict(Cfg(), old(levels), basePrice)
    {
      CentreOk(Cfg(), price);
      SpanParts(Cfg());
      var rounded: int64 := CDiv(price, tickSize) * tickSize;
      var reach: int64 := halfRange * tickSize;
      var newBase: int64 := rounded - reach;
      var distance: int64 := newBase - basePrice;
      ShiftSize(distance);
      var shift: int64 := CDiv(distance, tickSize);
      MoveWindow(newBase, shift);
    }

    // -------------------------------------------------------------- set, get, clear

    /** The highest active index, after cell `idx` changed. */
    method UpdateHigh(a: array<int64>, n: int32, idx: int32, ghost before: seq<int64>)
      requires a.Length == n && forall i :: 0 <= i < n ==> a[i] >= 0
      requires 0 <= idx < n && |before| == n && a[..] == before[idx := a[idx]]
      requires IsHigh(before, bestHighIdx)
      modifies this`bestHighIdx
      ensures IsHigh(a[..], bestHighIdx)
    {
      if a[idx] > 0 && idx > bestHighIdx {
        bestHighIdx := idx;
      } else if a[idx] == 0 && idx == bestHighIdx {
        while bestHighIdx >= 0 && a[bestHighIdx] == 0
          invariant -1 <= bestHighIdx < n
          invariant forall i :: bestHighIdx < i < n ==> a[..][i] == 0
        {
          bestHighIdx := bestHighIdx - 1;
        }
      }
    }

    /** The lowest active index, after cell `idx` changed. */
    method UpdateLow(a: array<int64>, n: int32, idx: int32, ghost before: seq<int64>)
      requires a.Length == n && forall i :: 0 <= i < n ==> a[i] >= 0
      requires 0 <= idx < n && |before| == n && a[..] == before[idx := a[idx]]
      requires IsLow(before, bestLowIdx)
      modifies this`bestLowIdx
      ensures IsLow(a[..], bestLowIdx)
    {
      if a[idx] > 0 && (bestLowIdx < 0 || idx < bestLowIdx) {
        bestLowIdx := idx;
      } else if a[idx] == 0 && idx == bestLowIdx {
        bestLowIdx := bestLowIdx + 1;
        while bestLowIdx < n && a[bestLowIdx] == 0
          invariant 0 <= bestLowIdx <= n
          invariant forall i :: 0 <= i < bestLowIdx ==> a[..][i] == 0
        {
          bestLowIdx := bestLowIdx + 1;
        }
        if bestLowIdx >= n {
          bestLowIdx := -1;
        }
      }
    }

    /** One cell and the caches that depend on it. */
    method WriteAt(a: array<int64>, n: int32, idx: int32, qty: int64)
      requires a == qtys && a.Length == n && 0 <= idx < n && qty >= 0
      requires forall i :: 0 <= i < n ==> a[i] >= 0
      requires count == CountActive(a[..]) && IsHigh(a[..], bestHighIdx) && IsLow(a[..], bestLowIdx)
      modifies this`count, this`bestHighIdx, this`bestLowIdx, a
      ensures a[..] == old(a[..])[idx := qty]
      ensures count == CountActive(a[..]) && IsHigh(a[..], bestHighIdx) && IsLow(a[..], bestLowIdx)
    {
      ghost var cells := a[..];
      var was := a[idx];
      a[idx] := qty;
      assert a[..] == cells[idx := qty];
      CountUpdate(cells, idx, qty);
      CountZero(cells);
      if was == 0 && qty > 0 {
        count := count + 1;
      } else if was > 0 && qty == 0 {
        count := count - 1;
      }
      UpdateHigh(a, n, idx, cells);
      UpdateLow(a, n, idx, cells);
    }

    lemma CellIndex(price: int64)
      requires Valid() && Cfg().PriceOk(price)
      requires initialized && Cfg().InWindow(basePrice, price)
      ensures ToIdx(price) == (price - basePrice) / tickSize && 0 <= ToIdx(price) < size
    {
      CellOf(Cfg(), basePrice, price);
    }

    /** The second half of `Set`: the price is inside the window. */
    method WriteCell(price: int64, qty: int64)
      requires Valid() && Cfg().PriceOk(price) && qty >= 0
      requires initialized && Cfg().InWindow(basePrice, price)
      modifies this`count, this`bestHighIdx, this`bestLowIdx, this`levels, qtys
      ensures Valid() && levels == Put(old(levels), price, qty)
    {
      ghost var cells := qtys[..];
      CellIndex(price);
      RepresentsPut(Cfg(), cells, basePrice, levels, price, qty);
      var idx: int32 := ToIdx(price);
      WriteAt(qtys, size, idx, qty);
      levels := Put(levels, price, qty);
      assert forall i :: 0 <= i < size ==> qtys[i] == qtys[..][i];
    }

    /** Acceptable prices can be compared with every window. */
    lemma InRangeFits(price: int64)
      requires Shape() && Cfg().PriceOk(price) && (initialized ==> Cfg().BaseOk(basePrice))
      ensures initialized ==> Fits(price - basePrice)
    {
      SpanParts(Cfg());
    }

    /** Sets or removes a level; says whether the window moved. */
    method Set(price: int64, qty: int64) returns (recentered: bool)
      requires Valid() && Cfg().PriceOk(price) && qty >= 0
      modifies this, qtys
      ensures Valid() && qtys == old(qtys)
      ensures Abs() == LadderSpec.Set(Cfg(), old(Abs()), price, qty)
      ensures recentered == Recentres(Cfg(), old(Abs()), price)
    {
      CentreOk(Cfg(), price);
      recentered := false;
      if !initialized {
        InitCenter(price);
      } else {
        InRangeFits(price);
        if !InRange(price) {
          Recenter(price);
          recentered := true;
        }
      }
      WriteCell(price, qty);
    }

    method Get(price: int64) returns (qty: int64)
      requires Valid() && Cfg().PriceOk(price)
      ensures qty == LadderSpec.Get(levels, price)
    {
      if !initialized {
        return 0;
      }
      InRangeFits(price);
      if !InRange(price) {
        return 0;
      }
      CellHolds(Cfg(), qtys[..], basePrice, levels, price);
      return qtys[ToIdx(price)];
    }

    method Clear()
      requires Valid()
      modifies this, qtys
      ensures Valid() && qtys == old(qtys) && Abs() == Ladder(None, map[])
    {
      if initialized {
        Memset0(qtys, 0, size);
      }
      count := 0;
      bestHighIdx := -1;
      bestLowIdx := -1;
      initialized := false;
      levels := map[];
      CountZero(qtys[..]);
    }

    // -------------------------------------------------------------- queries

    function ActiveCount(): int
      reads this
    {
      count
    }

    lemma ActiveCountIsSize()
      requires Valid()
      ensures ActiveCount() == |levels|
      ensures bestHighIdx == -1 <==> levels == map[]
      ensures bestLowIdx == -1 <==> levels == map[]
    {
      CountZero(qtys[..]);
      if initialized {
        ListingIsComplete(Cfg(), qtys[..], basePrice, levels);
      }
    }

    lemma LevelBounds(q: seq<int>, i: int, lo: int, hi: int)
      requires tickSize > 0 && 0 <= i < size == |q| && 0 <= lo && hi <= size && q[i] > 0
      requires forall j :: lo <= j < hi ==> q[j] == 0
      ensures ToPrice(i) <= ToPrice(lo - 1) || ToPrice(i) >= ToPrice(hi)
      ensures ToPrice(0) <= ToPrice(i) <= ToPrice(size - 1) < ToPrice(size)
    {
      PriceAtMonotone(basePrice, tickSize, lo - 1, i);
      PriceAtMonotone(basePrice, tickSize, i, hi);
      PriceAtMonotone(basePrice, tickSize, i, 0);
      PriceAtMonotone(basePrice, tickSize, size - 1, i);
      PriceAtMonotone(basePrice, tickSize, size - 1, size);
    }

    /** Zero cells from `lo` up to `hi` leave the levels below `lo` and those from `hi` on. */
    lemma NoLevelWhereZero(lo: int, hi: int)
      requires Valid() && initialized && 0 <= lo && hi <= size
      requires forall i :: lo <= i < hi ==> qtys[i] == 0
      ensures forall p :: p in levels ==> p <= ToPrice(lo - 1) || p >= ToPrice(hi)
      ensures forall p :: p in levels ==> ToPrice(0) <= p <= ToPrice(size - 1) < ToPrice(size)
    {
      forall p | p in levels
        ensures p <= ToPrice(lo - 1) || p >= ToPrice(hi)
        ensures ToPrice(0) <= p <= ToPrice(size - 1) < ToPrice(size)
      {
        CellHolds(Cfg(), qtys[..], basePrice, levels, p);
        LevelBounds(qtys[..], (p - basePrice) / tickSize, lo, hi);
      }
    }

    lemma CellIsLevel(i: int)
      requires Valid() && initialized && 0 <= i < size && qtys[i] > 0
      ensures ToPrice(i) in levels && levels[ToPrice(i)] == qtys[i] && 0 < ToPrice(i) <= MAX
    {
      assert qtys[..][i] == LadderSpec.Get(levels, PriceAt(basePrice, tickSize, i));
      SpanParts(Cfg());
    }

    method BestHigh() returns (r: int64)
      requires Valid()
      ensures IsBestOf(true, levels, r) && r >= 0
    {
      ActiveCountIsSize();
      if bestHighIdx < 0 {
        return 0;
      }
      CellIsLevel(bestHighIdx);
      NoLevelWhereZero(bestHighIdx + 1, size);
      return ToPrice(bestHighIdx);
    }

    method BestLow() returns (r: int64)
      requires Valid()
      ensures IsBestOf(false, levels, r) && r >= 0
    {
      ActiveCountIsSize();
      if bestLowIdx < 0 {
        return 0;
      }
      CellIsLevel(bestLowIdx);
      NoLevelWhereZero(0, bestLowIdx);
      return ToPrice(bestLowIdx);
    }

    /** The loop of `PrevBelow`: the highest active cell from `startIdx` down. */
    method ScanDown(startIdx: int32) returns (r: int64)
      requires Valid() && initialized && 0 <= startIdx < size
      ensures r >= 0 && (r == 0 ==> forall p :: p in levels ==> p > ToPrice(startIdx))
      ensures r != 0 ==> r in levels && r <= ToPrice(startIdx)
      ensures r != 0 ==> forall p :: p in levels ==> p <= r || p > ToPrice(startIdx)
    {
      PriceAtMonotone(basePrice, tickSize, startIdx, startIdx + 1);
      var i: int32 := startIdx;
      while i >= 0
        invariant -1 <= i <= startIdx
        invariant forall j :: i < j <= startIdx ==> qtys[j] == 0
      {
        if qtys[i] > 0 {
          CellIsLevel(i);
          NoLevelWhereZero(i + 1, startIdx + 1);
          PriceAtMonotone(basePrice, tickSize, startIdx, i);
          return ToPrice(i);
        }
        i := i - 1;
      }
      NoLevelWhereZero(0, startIdx + 1);
      return 0;
    }

    /** Cells up to `rawIdx` are those priced below `basePrice + offset`. */
    lemma CellsBelow(offset: int64, rawIdx: int64)
      requires Shape() && offset > 0 && rawIdx == CDiv(offset - 1, tickSize)
      ensures rawIdx >= 0
      ensures ToPrice(rawIdx) < basePrice + offset <= ToPrice(rawIdx + 1)
      ensures rawIdx >= size ==> ToPrice(size) < basePrice + offset
      ensures rawIdx >= size ==> ToPrice(size - 1) < basePrice + offset
    {
      QuotientBounds(offset - 1, tickSize);
      PriceAtMonotone(basePrice, tickSize, rawIdx, size);
      PriceAtMonotone(basePrice, tickSize, size - 1, size);
    }

    lemma NoLevelBelowWindow()
      requires Valid() && initialized
      ensures forall p :: p in levels ==> p >= basePrice
    {
    }

    /** The scan starts at the highest cell below the price. */
    lemma StartsBelow(below: int64, rawIdx: int64, startIdx: int32)
      requires Valid() && initialized && 0 < below - basePrice <= MAX
      requires rawIdx == CDiv(below - basePrice - 1, tickSize)
      requires startIdx == if rawIdx >= size then size - 1 else rawIdx
      ensures 0 <= startIdx && forall p :: p in levels ==> (p < below <==> p <= ToPrice(startIdx))
    {
      CellsBelow(below - basePrice, rawIdx);
      NoLevelWhereZero(startIdx + 1, startIdx + 1);
    }

    /** The best level strictly below any price, on the grid or not, inside the window or not. */
    method PrevBelow(below: int64) returns (r: int64)
      requires Valid() && (initialized ==> Fits(below - basePrice))
      ensures IsNextAfter(true, levels, below, r) && r >= 0
    {
      ActiveCountIsSize();
      if !initialized || bestHighIdx < 0 {
        return 0;
      }
      var offset: int64 := below - basePrice;
      NoLevelBelowWindow();
      if offset <= 0 {
        return 0;
      }
      QuotientBounds(offset - 1, tickSize);
      var rawIdx: int64 := CDiv(offset - 1, tickSize);
      var startIdx: int32 := if rawIdx >= size then size - 1 else rawIdx;
      StartsBelow(below, rawIdx, startIdx);
      r := ScanDown(startIdx);
    }

    /** The loop of `NextAbove`: the lowest active cell from `startIdx` up. */
    method ScanUp(startIdx: int32) returns (r: int64)
      requires Valid() && initialized && 0 <= startIdx < size
      ensures r >= 0 && (r == 0 ==> forall p :: p in levels ==> p < ToPrice(startIdx))
      ensures r != 0 ==> r in levels && r >= ToPrice(startIdx)
      ensures r != 0 ==> forall p :: p in levels ==> p >= r || p < ToPrice(startIdx)
    {
      PriceAtMonotone(basePrice, tickSize, startIdx - 1, startIdx);
      var i: int32 := startIdx;
      while i < size
        invariant startIdx <= i <= size
        invariant forall j :: startIdx <= j < i ==> qtys[j] == 0
      {
        if qtys[i] > 0 {
          CellIsLevel(i);
          NoLevelWhereZero(startIdx, i);
          PriceAtMonotone(basePrice, tickSize, i, startIdx);
          return ToPrice(i);
        }
        i := i + 1;
      }
      NoLevelWhereZero(startIdx, size);
      return 0;
    }

    /** Cells from `rawIdx` on are those priced above `basePrice + offset`. */
    lemma CellsAbove(offset: int64, rawIdx: int)
      requires Shape() && 0 <= offset && (tickSize == 1 ==> offset < MAX) && rawIdx == CDiv(offset, tickSize) + 1
      ensures 0 < rawIdx <= MAX
      ensures ToPrice(rawIdx - 1) <= basePrice + offset < ToPrice(rawIdx)
      ensures rawIdx >= size ==> ToPrice(size - 1) <= basePrice + offset
    {
      QuotientBounds(offset, tickSize);
      if tickSize > 1 {
        QuotientBelow(offset, tickSize);
      }
      PriceAtMonotone(basePrice, tickSize, size - 1, rawIdx - 1);
    }

    /** The best level strictly above any price. With a tick of 1 the index one past the largest
        distance would not fit. */
    method NextAbove(above: int64) returns (r: int64)
      requires Valid() && (initialized ==> Fits(above - basePrice) && (tickSize == 1 ==> above - basePrice < MAX))
      ensures IsNextAfter(false, levels, above, r) && r >= 0
    {
      ActiveCountIsSize();
      if !initialized || bestLowIdx < 0 {
        return 0;
      }
      NoLevelWhereZero(0, 0);
      var offset: int64 := above - basePrice;
      var startIdx: int32;
      if offset < 0 {
        startIdx := 0;
      } else {
        CellsAbove(offset, CDiv(offset, tickSize) + 1);
        var rawIdx: int64 := CDiv(offset, tickSize) + 1;
        if rawIdx >= size {
          return 0;
        }
        startIdx := rawIdx;
      }
      assert ToPrice(startIdx - 1) <= above < ToPrice(startIdx) || (startIdx == 0 && above < ToPrice(0));
      NoLevelWhereZero(startIdx, startIdx);
      r := ScanUp(startIdx);
    }

    lemma ListingIsBook()
      requires Valid()
      ensures var v := Listing(qtys[..], basePrice, tickSize); Lists(false, levels, v) && |v| == ActiveCount()
    {
      ListingAscends(qtys[..], basePrice, tickSize);
      if initialized {
        ListingIsComplete(Cfg(), qtys[..], basePrice, levels);
      } else {
        CountZero(qtys[..]);
      }
    }

    /** `forEach` with a callback that collects what it is given. */
    method ForEach() returns (out: seq<Level>)
      requires Valid()
      ensures Lists(false, levels, out) && |out| == ActiveCount()
    {
      out := [];
      var i: int32 := 0;
      while i < size
        invariant 0 <= i <= size
        invariant out == Listing(qtys[..i], basePrice, tickSize)
      {
        assert qtys[..i + 1][..i] == qtys[..i];
        if qtys[i] > 0 {
          out := out + [Level(ToPrice(i), qtys[i])];
        }
        i := i + 1;
      }
      assert qtys[..size] == qtys[..];
      ListingIsBook();
    }
  }
}
