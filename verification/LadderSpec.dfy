/** What a price ladder means: a finite map from price to quantity, seen through a window.

    The window is `2 * half + 1` ticks wide. It is unset until the first `Set`, follows the
    price when a `Set` falls outside it, and whatever it leaves behind is forgotten. */
module LadderSpec {
  import opened Int64
  import opened Wrappers

  /** The half range of every order book. */
  const DEFAULT_HALF_RANGE: int32 := 5000

  datatype Config = Config(tick: int, half: int) {
    /** The largest distance from a window's lowest to its highest price. */
    function Span(): int { 2 * half * tick }

    /** What the constructor checks: a positive tick and a size that fits an `int`. */
    predicate Accepted() {
      tick > 0 && 0 <= half <= (INT32_MAX - 1) / 2
    }

    /** Accepted, and the window span can be computed in 64 bits. */
    predicate Valid() {
      Accepted() && Fits(tick) && Fits(Span())
    }

    function Size(): int { 2 * half + 1 }

    /** A price the ladder may be given: a positive multiple of the tick whose window can be
        computed in 64 bits. */
    predicate PriceOk(p: int)
      requires tick > 0
    {
      1 <= p <= MAX - half * tick && p % tick == 0
    }

    /** The lowest price of the window centred on `p`. */
    function Centre(p: int): int { p - half * tick }

    predicate InWindow(base: int, p: int) {
      base <= p < base + Size() * tick
    }

    /** A base that some acceptable price gives. */
    predicate BaseOk(base: int)
      requires tick > 0
    {
      base % tick == 0 && tick - half * tick <= base <= MAX - Span()
    }
  }

  /** The abstract value of one ladder. */
  datatype Ladder = Ladder(base: Option<int>, levels: map<int, int>) {
    predicate InRange(c: Config, p: int) {
      base.Some? && c.InWindow(base.value, p)
    }

    ghost predicate Valid(c: Config)
      requires c.tick > 0
    {
      && (base.None? ==> levels == map[])
      && (base.Some? ==> c.BaseOk(base.value))
      && forall p :: p in levels ==> c.PriceOk(p) && InRange(c, p) && 0 < levels[p] <= MAX
    }
  }

  const EMPTY := Ladder(None, map[])

  function Get(m: map<int, int>, p: int): int {
    if p in m then m[p] else 0
  }

  /** A quantity of zero removes the level. */
  function Put(m: map<int, int>, p: int, q: int): map<int, int> {
    if q == 0 then m - {p} else m[p := q]
  }

  function Restrict(c: Config, m: map<int, int>, base: int): map<int, int> {
    map p | p in m && c.InWindow(base, p) :: m[p]
  }

  predicate Recentres(c: Config, l: Ladder, p: int) {
    l.base.Some? && !l.InRange(c, p)
  }

  /** `PriceLadder::set`: a map update, preceded by a restriction when the window moves. */
  function Set(c: Config, l: Ladder, p: int, q: int): Ladder {
    if l.base.None? then Ladder(Some(c.Centre(p)), Put(l.levels, p, q))
    else if l.InRange(c, p) then l.(levels := Put(l.levels, p, q))
    else Ladder(Some(c.Centre(p)), Put(Restrict(c, l.levels, c.Centre(p)), p, q))
  }

  // ---------------------------------------------------------------- the price grid

  function PriceAt(base: int, tick: int, i: int): int {
    base + i * tick
  }

  lemma PriceAtMonotone(base: int, tick: int, i: int, j: int)
    requires tick > 0
    ensures i < j <==> PriceAt(base, tick, i) < PriceAt(base, tick, j)
    ensures i == j <==> PriceAt(base, tick, i) == PriceAt(base, tick, j)
  {
    assert (j - i) * tick == j * tick - i * tick;
    if i < j {
      assert (j - i) * tick > 0;
    } else if j < i {
      assert (i - j) * tick > 0;
      assert (i - j) * tick == i * tick - j * tick;
    }
  }

  lemma NoSmallMultiple(tick: int, d: int)
    requires tick > 0
    ensures 0 <= d * tick < tick ==> d == 0
  {
    if d > 0 {
      assert d * tick >= tick;
    } else if d < 0 {
      assert d * tick <= -tick;
    }
  }

  lemma MultipleOf(tick: int, k: int)
    requires tick > 0
    ensures (k * tick) % tick == 0 && (k * tick) / tick == k
  {
    var x := k * tick;
    var d := k - x / tick;
    assert d * tick == x % tick;
    NoSmallMultiple(tick, d);
  }

  lemma SumOfMultiples(tick: int, a: int, b: int)
    requires tick > 0 && a % tick == 0 && b % tick == 0
    ensures (a + b) % tick == 0 && (a - b) % tick == 0
    ensures (a - b) == ((a - b) / tick) * tick
  {
    var x, y := a / tick, b / tick;
    assert a == x * tick && b == y * tick;
    assert a + b == (x + y) * tick && a - b == (x - y) * tick;
    MultipleOf(tick, x + y);
    MultipleOf(tick, x - y);
  }

  /** A price on the grid inside the window has exactly one cell. */
  lemma CellOf(c: Config, base: int, p: int)
    requires c.tick > 0 && c.half >= 0 && base % c.tick == 0 && p % c.tick == 0
    ensures PriceAt(base, c.tick, (p - base) / c.tick) == p
    ensures c.InWindow(base, p) <==> 0 <= (p - base) / c.tick < c.Size()
  {
    SumOfMultiples(c.tick, p, base);
    var i := (p - base) / c.tick;
    assert p == base + i * c.tick;
    PriceAtMonotone(base, c.tick, i, 0);
    PriceAtMonotone(base, c.tick, i, c.Size());
  }

  /** Every cell has a price on the grid inside the window. */
  lemma PriceOf(c: Config, base: int, i: int)
    requires c.tick > 0 && c.half >= 0 && base % c.tick == 0 && 0 <= i < c.Size()
    ensures PriceAt(base, c.tick, i) % c.tick == 0
    ensures c.InWindow(base, PriceAt(base, c.tick, i))
    ensures (PriceAt(base, c.tick, i) - base) / c.tick == i
  {
    MultipleOf(c.tick, i);
    SumOfMultiples(c.tick, base, i * c.tick);
    PriceAtMonotone(base, c.tick, 0, i);
    PriceAtMonotone(base, c.tick, i, c.Size());
  }

  lemma AtLeastTick(tick: int, p: int)
    requires tick > 0 && 1 <= p && p % tick == 0
    ensures p >= tick && (p / tick) * tick == p
  {
    assert p == (p / tick) * tick;
    if p < tick {
      NoSmallMultiple(tick, p / tick);
    }
  }

  lemma SpanParts(c: Config)
    requires c.tick > 0 && c.half >= 0
    ensures c.half * c.tick >= 0 && c.Span() == 2 * (c.half * c.tick)
    ensures c.Size() * c.tick == c.Span() + c.tick
    ensures (c.half * c.tick) % c.tick == 0
  {
    MultipleOf(c.tick, c.half);
    assert c.Size() * c.tick == 2 * c.half * c.tick + c.tick;
  }

  lemma CentreOk(c: Config, p: int)
    requires c.Valid() && c.PriceOk(p)
    ensures c.BaseOk(c.Centre(p)) && c.InWindow(c.Centre(p), p)
    ensures (p / c.tick) * c.tick == p
  {
    SpanParts(c);
    var h := c.half * c.tick;
    SumOfMultiples(c.tick, p, h);
    AtLeastTick(c.tick, p);
  }

  /** The window has as many ticks below its centre as above. */
  lemma CentreIsMiddle(c: Config, p: int, x: int)
    requires c.Valid() && c.PriceOk(p) && x % c.tick == 0
    ensures c.InWindow(c.Centre(p), x) <==> -c.half * c.tick <= x - p <= c.half * c.tick
  {
    var base := c.Centre(p);
    CentreOk(c, p);
    SpanParts(c);
    CellOf(c, base, x);
    PriceAtMonotone(base, c.tick, (x - base) / c.tick, 2 * c.half);
    assert -c.half * c.tick == -(c.half * c.tick);
    assert 2 * c.half * c.tick == 2 * (c.half * c.tick);
  }

  /** Every subtraction and product of the ladder's code stays inside 64 bits, and the index of a
      price in the window fits the array, for all reachable bases and acceptable prices. */
  lemma ArithmeticFits(c: Config, base: int, p: int)
    requires c.Valid() && c.BaseOk(base) && c.PriceOk(p)
    ensures Fits(p - base) && Fits(c.Centre(p)) && Fits(c.Centre(p) - base)
    ensures Fits(c.half * c.tick) && Fits((c.Size() - 1) * c.tick) && Fits(base + (c.Size() - 1) * c.tick)
    ensures c.InWindow(base, p) ==> 0 <= (p - base) / c.tick < c.Size() <= INT32_MAX
    ensures forall i :: 0 <= i < c.Size() ==> Fits(i * c.tick) && Fits(PriceAt(base, c.tick, i))
  {
    SpanParts(c);
    CentreOk(c, p);
    CellOf(c, base, p);
    forall i | 0 <= i < c.Size()
      ensures Fits(i * c.tick) && Fits(PriceAt(base, c.tick, i))
    {
      PriceAtMonotone(0, c.tick, c.Size() - 1, i);
      PriceAtMonotone(0, c.tick, i, 0);
    }
  }
}
