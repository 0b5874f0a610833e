/** The order book of src/order_book.cpp: two ladders and, beside each, the list of its best
    levels, kept up to date change by change. Proved to be the book of `BookSpec`, with each list
    equal to the one a rebuild would give. */
module OrderBook {
  import opened Int64
  import opened Wrappers
  import opened Levels
  import opened LadderSpec
  import opened OfiView
  import opened BookSpec
  import opened PriceLadder

  /** What `UpdateOfiView` says about other levels; 0 stands for no level. */
  datatype ViewChange = ViewChange(evictedPrice: int, evictedQty: int,
                                   replacementPrice: int, replacementQty: int)

  function FirstPrice(v: seq<Level>): int { if v == [] then 0 else v[0].price }
  function FirstQty(v: seq<Level>): int { if v == [] then 0 else v[0].qty }

  /** `std::lower_bound` in a view. */
  method LowerBound(isBid: bool, v: seq<Level>, price: int) returns (i: nat)
    requires Sorted(isBid, v)
    ensures IsLowerBound(isBid, v, price, i)
  {
    i := 0;
    while i < |v| && Better(isBid, v[i].price, price)
      invariant i <= |v|
      invariant forall j :: 0 <= j < i ==> Better(isBid, v[j].price, price)
    {
      i := i + 1;
    }
  }

  class OrderBook {
    const ofiDepth: nat
    const bidLadder: PriceLadder
    const askLadder: PriceLadder
    var lastUpdateId: int64
    var snapshotApplied: bool
    var ofiBids: seq<Level>
    var ofiAsks: seq<Level>

    ghost function Ps(): Params { Params(bidLadder.Cfg(), ofiDepth) }

    function Ladder(isBid: bool): PriceLadder { if isBid then bidLadder else askLadder }

    function View(isBid: bool): seq<Level>
      reads this
    {
      if isBid then ofiBids else ofiAsks
    }

    ghost function Repr(): set<object>
      reads this, bidLadder, askLadder
    {
      {this, bidLadder, askLadder, bidLadder.qtys, askLadder.qtys}
    }

    /** The ladders are sound and share nothing. */
    ghost predicate LaddersOk()
      reads this, bidLadder, askLadder, bidLadder.qtys, askLadder.qtys
    {
      && bidLadder != askLadder && bidLadder.qtys != askLadder.qtys
      && bidLadder.Valid() && askLadder.Valid() && askLadder.Cfg() == bidLadder.Cfg()
    }

    ghost predicate ViewOk(isBid: bool)
      reads this, bidLadder, askLadder
    {
      View(isBid) == Top(isBid, Ladder(isBid).levels, ofiDepth)
    }

    ghost predicate Valid()
      reads this, bidLadder, askLadder, bidLadder.qtys, askLadder.qtys
    {
      LaddersOk() && ViewOk(true) && ViewOk(false)
    }

    ghost function Abs(): Book
      reads this, bidLadder, askLadder
    {
      Book(bidLadder.Abs(), askLadder.Abs(), lastUpdateId, snapshotApplied)
    }

    static method Make(depth: nat, tick: int64) returns (r: Result<OrderBook>)
      ensures r.Success? <==> tick > 0
      ensures r.Success? ==> fresh(r.value.Repr())
      ensures r.Success? ==> r.value.Abs() == Book(LadderSpec.Ladder(None, map[]), LadderSpec.Ladder(None, map[]), 0, false)
      ensures r.Success? ==> r.value.Ps() == Params(Config(tick, DEFAULT_HALF_RANGE), depth)
      ensures r.Success? && Config(tick, DEFAULT_HALF_RANGE).Valid() ==> r.value.Valid()
    {
      var bids := PriceLadder.Make(tick, DEFAULT_HALF_RANGE);
      var asks := PriceLadder.Make(tick, DEFAULT_HALF_RANGE);
      if bids.Failure? || asks.Failure? {
        return Failure("PriceLadder: tickSizeArg must be positive");
      }
      var b := new OrderBook(depth, bids.value, asks.value);
      return Success(b);
    }

    constructor (depth: nat, bids: PriceLadder, asks: PriceLadder)
      requires bids != asks && bids.qtys != asks.qtys
      requires bids.Cfg() == asks.Cfg() && bids.Abs() == EMPTY && asks.Abs() == EMPTY
      ensures Abs() == CLEARED && ofiDepth == depth && bidLadder == bids && askLadder == asks
      ensures bids.Valid() && asks.Valid() ==> Valid()
    {
      ofiDepth, bidLadder, askLadder := depth, bids, asks;
      lastUpdateId, snapshotApplied, ofiBids, ofiAsks := 0, false, [], [];
    }

    // -------------------------------------------------------------- the views

    method SetView(isBid: bool, v: seq<Level>)
      modifies this`ofiBids, this`ofiAsks
      ensures View(isBid) == v && View(!isBid) == old(View(!isBid))
    {
      if isBid {
        ofiBids := v;
      } else {
        ofiAsks := v;
      }
    }

    /** The distance from the window to one of its own levels can be computed. */
    lemma LevelDistance(isBid: bool, p: int)
      requires LaddersOk() && p in Ladder(isBid).levels
      ensures var l := Ladder(isBid);
              l.initialized && Fits(p - l.basePrice) && p - l.basePrice < MAX && Ps().c.PriceOk(p)
    {
      var l := Ladder(isBid);
      SpanParts(l.Cfg());
    }

    /** The quantity of a level that is known to be there. */
    method GetLevel(isBid: bool, p: int) returns (q: int64)
      requires LaddersOk() && p in Ladder(isBid).levels
      ensures q == Ladder(isBid).levels[p] && 0 < p <= MAX
    {
      LevelDistance(isBid, p);
      q := Ladder(isBid).Get(p);
    }

    /** The best level, or the best one worse than `worst`. */
    method NextLevel(isBid: bool, hasWorst: bool, worst: int) returns (p: int64)
      requires LaddersOk()
      requires hasWorst ==> worst in Ladder(isBid).levels
      ensures if hasWorst then IsNextAfter(isBid, Ladder(isBid).levels, worst, p)
              else IsBestOf(isBid, Ladder(isBid).levels, p)
      ensures p >= 0
    {
      if hasWorst {
        LevelDistance(isBid, worst);
        if isBid {
          p := bidLadder.PrevBelow(worst);
        } else {
          p := askLadder.NextAbove(worst);
        }
      } else if isBid {
        p := bidLadder.BestHigh();
      } else {
        p := askLadder.BestLow();
      }
    }

    /** `std::vector::erase` and the refill from the ladder. */
    method EraseFromView(isBid: bool, v: seq<Level>, i: nat, ghost m: map<int, int>)
      returns (view: seq<Level>, change: ViewChange)
      requires LaddersOk() && i < |v| && 0 !in m && IsTop(isBid, m, ofiDepth, v)
      requires Ladder(isBid).levels == m - {v[i].price}
      ensures view == Top(isBid, Ladder(isBid).levels, ofiDepth) && !InView(view, v[i].price)
      ensures var rp := Replacement(ofiDepth, v, view, v[i].price);
              change == ViewChange(0, 0, FirstPrice(rp), FirstQty(rp))
    {
      var wasFull := |v| == ofiDepth;
      ErasePrices(isBid, v, i);
      view := v[..i] + v[i + 1..];
      var hasWorst := view != [];
      assert hasWorst ==> view[|view| - 1].price in Ladder(isBid).levels;
      var repPrice := NextLevel(isBid, hasWorst, if hasWorst then view[|view| - 1].price else 0);
      EraseRefill(isBid, m, ofiDepth, v, i, repPrice);
      change := ViewChange(0, 0, 0, 0);
      if repPrice != 0 {
        var repQty := GetLevel(isBid, repPrice);
        InViewAppend(view, Level(repPrice, repQty), v[i].price);
        view := view + [Level(repPrice, repQty)];
        assert view[ofiDepth - 1..] == [Level(repPrice, repQty)];
      }
      TopIsUnique(isBid, Ladder(isBid).levels, ofiDepth, view);
      if wasFull && |view| == ofiDepth {
        change := ViewChange(0, 0, view[|view| - 1].price, view[|view| - 1].qty);
      }
    }

    /** `std::vector::insert` and the eviction of the worst level. */
    method InsertIntoView(isBid: bool, v: seq<Level>, i: nat, l: Level, ghost m: map<int, int>)
      returns (view: seq<Level>, change: ViewChange)
      requires IsTop(isBid, m, ofiDepth, v) && !InView(v, l.price) && IsLowerBound(isBid, v, l.price, i)
      requires |v| < ofiDepth || (ofiDepth > 0 && Better(isBid, l.price, v[ofiDepth - 1].price))
      ensures view == Top(isBid, m[l.price := l.qty], ofiDepth)
      ensures var ev := Evicted(ofiDepth, v, view, l.price);
              change == ViewChange(FirstPrice(ev), FirstQty(ev), 0, 0)
      ensures InView(view, l.price)
    {
      InsertPrices(isBid, v, i, l);
      view := v[..i] + [l] + v[i..];
      assert view == Insert(v, i, l);
      change := ViewChange(0, 0, 0, 0);
      if |view| > ofiDepth {
        InsertEvict(isBid, m, ofiDepth, v, i, l);
        change := ViewChange(view[|view| - 1].price, view[|view| - 1].qty, 0, 0);
        view := view[..|view| - 1];
        assert view[i].price == l.price;
      } else {
        InsertFits(isBid, m, ofiDepth, v, i, l);
      }
      TopIsUnique(isBid, m[l.price := l.qty], ofiDepth, view);
    }

    /** Brings one view up to date after the ladder went from `m` to `Put(m, price, newQty)`. */
    method UpdateOfiView(price: int64, newQty: int64, isBid: bool, ghost m: map<int, int>)
      returns (change: ViewChange)
      requires LaddersOk() && newQty >= 0 && 0 !in m
      requires View(isBid) == Top(isBid, m, ofiDepth)
      requires Ladder(isBid).levels == Put(m, price, newQty)
      modifies this`ofiBids, this`ofiAsks
      ensures View(!isBid) == old(View(!isBid)) && ViewOk(isBid)
      ensures var ev := Evicted(ofiDepth, old(View(isBid)), View(isBid), price);
              var rp := Replacement(ofiDepth, old(View(isBid)), View(isBid), price);
              change == ViewChange(FirstPrice(ev), FirstQty(ev), FirstPrice(rp), FirstQty(rp))
    {
      TopIsTop(isBid, m, ofiDepth);
      var view := View(isBid);
      var it := LowerBound(isBid, view, price);
      LowerBoundFinds(isBid, view, price, it);
      var inView := it < |view| && view[it].price == price;
      change := ViewChange(0, 0, 0, 0);
      if inView {
        if newQty == 0 {
          view, change := EraseFromView(isBid, view, it, m);
        } else {
          ReplaceQty(isBid, m, ofiDepth, view, it, newQty);
          view := view[it := Level(price, newQty)];
          TopIsUnique(isBid, m[price := newQty], ofiDepth, view);
          assert view[it].price == price;
        }
      } else if newQty > 0 && (|view| < ofiDepth
                               || (view != [] && Better(isBid, price, view[|view| - 1].price))) {
        view, change := InsertIntoView(isBid, view, it, Level(price, newQty), m);
      } else {
        StaysOutside(isBid, m, ofiDepth, view, price, newQty);
        TopIsUnique(isBid, Put(m, price, newQty), ofiDepth, view);
      }
      SetView(isBid, view);
    }

    method WalkLadder(isBid: bool) returns (view: seq<Level>)
      requires LaddersOk()
      ensures view == Top(isBid, Ladder(isBid).levels, ofiDepth)
    {
      var ladder := Ladder(isBid);
      view := [];
      var p := NextLevel(isBid, false, 0);
      while p > 0 && |view| < ofiDepth
        invariant p == 0 || (p in ladder.levels && p > 0)
        invariant |view| <= ofiDepth && Walking(isBid, ladder.levels, view, p)
        decreases ofiDepth - |view|
      {
        var q := GetLevel(isBid, p);
        var next := NextLevel(isBid, true, p);
        WalkStep(isBid, ladder.levels, view, p, next);
        view := view + [Level(p, q)];
        p := next;
      }
      WalkEnds(isBid, ladder.levels, view, p, ofiDepth);
    }

    /** Rebuilds one view by walking the ladder from its best level. */
    method RebuildOfiSide(isBid: bool)
      requires LaddersOk()
      modifies this`ofiBids, this`ofiAsks
      ensures View(!isBid) == old(View(!isBid)) && ViewOk(isBid)
    {
      var view := WalkLadder(isBid);
      SetView(isBid, view);
    }

    // -------------------------------------------------------------- changes

    /** The directional guard: a price on the far side of a window that holds levels. */
    method IsDeepPrice(isBid: bool, price: int64) returns (dropped: bool)
      requires LaddersOk() && Ps().c.PriceOk(price)
      ensures dropped == IsDropped(Ps().c, isBid, Ladder(isBid).Abs(), price)
    {
      var ladder := Ladder(isBid);
      ladder.InRangeFits(price);
      ladder.ActiveCountIsSize();
      dropped := false;
      if ladder.ActiveCount() > 0 && !ladder.InRange(price) {
        dropped := if isBid then price < ladder.WindowLow() else price > ladder.WindowHigh();
      }
    }

    /** `PriceLadder::set`, and the rebuild of the view when the window moved. */
    method SetLevel(isBid: bool, price: int64, newQty: int64)
      requires Valid() && Ps().c.PriceOk(price) && newQty >= 0
      requires !IsDropped(Ps().c, isBid, Ladder(isBid).Abs(), price)
      modifies this`ofiBids, this`ofiAsks, Ladder(isBid), Ladder(isBid).qtys
      ensures LaddersOk() && ViewOk(!isBid)
      ensures bidLadder.qtys == old(bidLadder.qtys) && askLadder.qtys == old(askLadder.qtys)
      ensures Ladder(isBid).Abs() == Change(Ps().c, isBid, old(Ladder(isBid).Abs()), price, newQty)
      ensures View(isBid) == ViewBefore(Ps(), isBid, old(Ladder(isBid).Abs()), price, newQty)
    {
      var recentered := Ladder(isBid).Set(price, newQty);
      if recentered {
        RebuildOfiSide(isBid);
      }
    }

    /** The deltas of a change: the level itself, then what left and what entered the view. */
    static method AppendReport(k: nat, isBid: bool, kind: EventKind, ghost v0: seq<Level>, ghost v1: seq<Level>,
                               head: LevelDelta, change: ViewChange, out: seq<LevelDelta>)
      returns (deltas: seq<LevelDelta>)
      requires head == LevelDelta(head.price, head.newQty, head.deltaQty, isBid,
                                  InView(v0, head.price), InView(v1, head.price), kind)
      requires !InView(v0, 0) && !InView(v1, 0)
      requires var ev, rp := Evicted(k, v0, v1, head.price), Replacement(k, v0, v1, head.price);
               change == ViewChange(FirstPrice(ev), FirstQty(ev), FirstPrice(rp), FirstQty(rp))
      ensures deltas == out + Report(k, isBid, kind, v0, v1, head.price, head.newQty - head.deltaQty, head.newQty)
    {
      ghost var ev, rp := Evicted(k, v0, v1, head.price), Replacement(k, v0, v1, head.price);
      deltas := out + [head];
      var secondaryKind := if kind == Backfill then Backfill else Maintenance;
      assert |ev| <= 1 && |rp| <= 1;
      assert ev != [] ==> ev[0] == v0[k - 1];
      if change.evictedPrice != 0 {
        var q := change.evictedQty;
        deltas := deltas + [LevelDelta(change.evictedPrice, q, -q, isBid, true, false, secondaryKind)];
      }
      assert deltas == out + [head] + Leaves(isBid, Secondary(kind), ev);
      assert rp != [] ==> rp[0] == v1[k - 1];
      if change.replacementPrice != 0 {
        var q := change.replacementQty;
        deltas := deltas + [LevelDelta(change.replacementPrice, q, q, isBid, false, true, secondaryKind)];
      }
      assert deltas == out + [head] + Leaves(isBid, Secondary(kind), ev) + Enters(isBid, Secondary(kind), rp);
    }

    lemma ViewHasNoZero(isBid: bool)
      requires LaddersOk() && (View(isBid) == Top(isBid, Ladder(isBid).levels, ofiDepth))
      ensures !InView(View(isBid), 0)
    {
      TopIsTop(isBid, Ladder(isBid).levels, ofiDepth);
    }

    static lemma NoZero(isBid: bool, m: map<int, int>, k: nat)
      requires 0 !in m
      ensures !InView(Top(isBid, m, k), 0)
    {
      TopIsTop(isBid, m, k);
    }

    /** The rest of a change that altered a quantity: the view and the deltas. */
    method RecordChange(price: int64, newQty: int64, prevQty: int64, isBid: bool, kind: EventKind,
                        out: seq<LevelDelta>, ghost m: map<int, int>)
      returns (deltas: seq<LevelDelta>)
      requires LaddersOk() && newQty >= 0 && prevQty >= 0 && 0 !in m
      requires View(isBid) == Top(isBid, m, ofiDepth)
      requires Ladder(isBid).levels == Put(m, price, newQty)
      modifies this`ofiBids, this`ofiAsks
      ensures View(!isBid) == old(View(!isBid)) && ViewOk(isBid)
      ensures deltas == out + Report(ofiDepth, isBid, kind, old(View(isBid)), View(isBid), price, prevQty, newQty)
    {
      ghost var v0 := View(isBid);
      var delta: int64 := newQty - prevQty;
      var wasInView := InView(View(isBid), price);
      var change := UpdateOfiView(price, newQty, isBid, m);
      var nowInView := InView(View(isBid), price);
      NoZero(isBid, m, ofiDepth);
      ViewHasNoZero(isBid);
      deltas := AppendReport(ofiDepth, isBid, kind, v0, View(isBid),
                             LevelDelta(price, newQty, delta, isBid, wasInView, nowInView, kind), change, out);
    }

    lemma AbsIsValid(isBid: bool)
      requires LaddersOk()
      ensures Ladder(isBid).Abs().Valid(Ps().c)
    {
    }

    /** What the view stands for when `updateOfiView` is called. */
    static lemma ViewBasis(c: Config, isBid: bool, l: LadderSpec.Ladder, p: int, q: int)
      requires c.Valid() && l.Valid(c) && c.PriceOk(p) && 0 <= q <= MAX && !IsDropped(c, isBid, l, p)
      ensures var l', m := Change(c, isBid, l, p, q), Basis(c, isBid, l, p, q);
              && 0 !in m && l'.levels == Put(m, p, q)
              && (q == Get(l.levels, p) ==> l'.levels == m)
    {
      SetValid(c, l, p, q);
    }

    /** A change that passed the guard. */
    method ChangeLevel(price: int64, newQty: int64, prevQty: int64, isBid: bool, kind: EventKind, out: seq<LevelDelta>)
      returns (deltas: seq<LevelDelta>)
      requires Valid() && Ps().c.PriceOk(price) && newQty >= 0 && prevQty == Get(Ladder(isBid).levels, price)
      requires !IsDropped(Ps().c, isBid, Ladder(isBid).Abs(), price)
      modifies this`ofiBids, this`ofiAsks, Ladder(isBid), Ladder(isBid).qtys
      ensures Valid() && bidLadder.qtys == old(bidLadder.qtys) && askLadder.qtys == old(askLadder.qtys)
      ensures Ladder(isBid).Abs() == Change(Ps().c, isBid, old(Ladder(isBid).Abs()), price, newQty)
      ensures deltas == out + if newQty == prevQty then []
                              else Report(ofiDepth, isBid, kind, ViewBefore(Ps(), isBid, old(Ladder(isBid).Abs()), price, newQty),
                                          View(isBid), price, prevQty, newQty)
    {
      ghost var m := Basis(Ps().c, isBid, Ladder(isBid).Abs(), price, newQty);
      AbsIsValid(isBid);
      ViewBasis(Ps().c, isBid, Ladder(isBid).Abs(), price, newQty);
      deltas := out;
      SetLevel(isBid, price, newQty);
      var delta: int64 := newQty - prevQty;
      if delta != 0 {
        deltas := RecordChange(price, newQty, prevQty, isBid, kind, out, m);
      }
    }

    /** One level change: the ladder, the view, and the deltas appended to `out`. */
    method ApplyLevelChange(price: int64, newQty: int64, isBid: bool, kind: EventKind, out: seq<LevelDelta>)
      returns (deltas: seq<LevelDelta>)
      requires Valid() && EditOk(Ps().c, Edit(isBid, price, newQty))
      modifies this`ofiBids, this`ofiAsks, Ladder(isBid), Ladder(isBid).qtys
      ensures Valid() && bidLadder.qtys == old(bidLadder.qtys) && askLadder.qtys == old(askLadder.qtys)
      ensures Ladder(isBid).Abs() == Change(Ps().c, isBid, old(Ladder(isBid).Abs()), price, newQty)
      ensures deltas == out + Deltas(Ps(), isBid, kind, old(Ladder(isBid).Abs()), price, newQty)
    {
      deltas := out;
      var prevQty := Ladder(isBid).Get(price);
      var isDeep := IsDeepPrice(isBid, price);
      if !isDeep {
        deltas := ChangeLevel(price, newQty, prevQty, isBid, kind, out);
      }
    }

    /** `ApplyLevelChange`, seen on the whole book. */
    method ApplyEdit(e: Edit, kind: EventKind, out: seq<LevelDelta>) returns (deltas: seq<LevelDelta>)
      requires Valid() && EditOk(Ps().c, e)
      modifies this`ofiBids, this`ofiAsks, Ladder(e.isBid), Ladder(e.isBid).qtys
      ensures Valid() && bidLadder.qtys == old(bidLadder.qtys) && askLadder.qtys == old(askLadder.qtys)
      ensures Abs() == Apply(Ps().c, old(Abs()), e)
      ensures deltas == out + EditDeltas(Ps(), kind, old(Abs()), e)
    {
      deltas := ApplyLevelChange(e.price, e.qty, e.isBid, kind, out);
    }

    /** A loop of `applyLevelChange` over one side of a batch; `es` has been applied to `b`. */
    method ApplySide(levels: seq<Level>, isBid: bool, kind: EventKind, out: seq<LevelDelta>,
                     ghost b: Book, ghost es: seq<Edit>)
      returns (deltas: seq<LevelDelta>)
      requires Valid() && LevelsOk(Ps().c, levels)
      requires Abs() == ApplyAll(Ps().c, b, es) && out == AllDeltas(Ps(), kind, b, es)
      modifies this`ofiBids, this`ofiAsks, Ladder(isBid), Ladder(isBid).qtys
      ensures Valid() && bidLadder.qtys == old(bidLadder.qtys) && askLadder.qtys == old(askLadder.qtys)
      ensures Abs() == ApplyAll(Ps().c, b, es + Edits(isBid, levels))
      ensures deltas == AllDeltas(Ps(), kind, b, es + Edits(isBid, levels))
    {
      deltas := out;
      ghost var all := Edits(isBid, levels);
      assert es + all[..0] == es;
      for i := 0 to |levels|
        invariant Valid() && bidLadder.qtys == old(bidLadder.qtys) && askLadder.qtys == old(askLadder.qtys)
        invariant Abs() == ApplyAll(Ps().c, b, es + all[..i])
        invariant deltas == AllDeltas(Ps(), kind, b, es + all[..i])
      {
        ApplyOneMore(Ps(), kind, b, es, isBid, levels, i);
        deltas := ApplyEdit(Edit(isBid, levels[i].price, levels[i].qty), kind, deltas);
      }
      assert all[..|levels|] == all;
    }

    /** Both sides of an update, asks before bids. */
    method ApplyBatch(d: Diff, kind: EventKind) returns (deltas: seq<LevelDelta>)
      requires Valid() && LevelsOk(Ps().c, d.asks) && LevelsOk(Ps().c, d.bids)
      modifies this`ofiBids, this`ofiAsks, bidLadder, bidLadder.qtys, askLadder, askLadder.qtys
      ensures Valid() && bidLadder.qtys == old(bidLadder.qtys) && askLadder.qtys == old(askLadder.qtys)
      ensures Abs() == ApplyAll(Ps().c, old(Abs()), d.Batch())
      ensures deltas == AllDeltas(Ps(), kind, old(Abs()), d.Batch())
    {
      ghost var b := Abs();
      assert [] + Edits(false, d.asks) == Edits(false, d.asks);
      deltas := ApplySide(d.asks, false, kind, [], b, []);
      deltas := ApplySide(d.bids, true, kind, deltas, b, Edits(false, d.asks));
    }

    /** `applyUpdate`: false says that a gap was found and nothing was applied. */
    method ApplyUpdate(d: Diff, kind: EventKind) returns (success: bool, deltas: seq<LevelDelta>)
      requires Valid() && DiffOk(Ps().c, d)
      modifies this, bidLadder, bidLadder.qtys, askLadder, askLadder.qtys
      ensures Valid() && bidLadder.qtys == old(bidLadder.qtys) && askLadder.qtys == old(askLadder.qtys)
      ensures success <==> d.last <= old(lastUpdateId) || d.first - old(lastUpdateId) <= 1
      ensures success ==> lastUpdateId == if d.last <= old(lastUpdateId) then old(lastUpdateId) else d.last
      ensures !success || d.last <= old(lastUpdateId) ==> Abs() == old(Abs()) && deltas == []
      ensures Abs() == Update(Ps().c, old(Abs()), d)
      ensures deltas == UpdateDeltas(Ps(), kind, old(Abs()), d)
    {
      if d.last <= lastUpdateId {
        return true, [];
      }
      var next: int64 := lastUpdateId + 1;
      if d.first > next {
        return false, [];
      }
      deltas := ApplyBatch(d, kind);
      lastUpdateId := d.last;
      success := true;
    }

    /** `applyDelta`: no sequence check, bids before asks. */
    method ApplyDelta(bids: seq<Level>, asks: seq<Level>, kind: EventKind) returns (deltas: seq<LevelDelta>)
      requires Valid() && LevelsOk(Ps().c, bids) && LevelsOk(Ps().c, asks)
      modifies this, bidLadder, bidLadder.qtys, askLadder, askLadder.qtys
      ensures Valid() && bidLadder.qtys == old(bidLadder.qtys) && askLadder.qtys == old(askLadder.qtys)
      ensures Abs() == ApplyAll(Ps().c, old(Abs()), Edits(true, bids) + Edits(false, asks))
      ensures deltas == AllDeltas(Ps(), kind, old(Abs()), Edits(true, bids) + Edits(false, asks))
    {
      ghost var b := Abs();
      deltas := ApplySide(bids, true, kind, [], b, []);
      assert [] + Edits(true, bids) == Edits(true, bids);
      deltas := ApplySide(asks, false, kind, deltas, b, Edits(true, bids));
    }

    // -------------------------------------------------------------- snapshots and clearing

    static method KeepPositive(levels: seq<Level>, ghost c: Config) returns (kept: seq<Level>)
      requires c.tick > 0 && LevelsOk(c, levels)
      ensures LevelsOk(c, kept) && (forall i :: 0 <= i < |kept| ==> kept[i].qty > 0)
      ensures Load(c, kept) == Load(c, levels)
    {
      PositiveOk(c, levels);
      LoadPositive(c, levels);
      kept := [];
      for i := 0 to |levels|
        invariant kept == Positive(levels[..i])
      {
        assert levels[..i + 1][..i] == levels[..i];
        if levels[i].qty > 0 {
          kept := kept + [levels[i]];
        }
      }
      assert levels[..|levels|] == levels;
    }

    static method LoadLevel(ladder: PriceLadder, x: Level)
      requires ladder.Valid() && ladder.Cfg().PriceOk(x.price) && 0 < x.qty <= MAX
      modifies ladder, ladder.qtys
      ensures ladder.Valid() && ladder.qtys == old(ladder.qtys)
      ensures var l := old(ladder.Abs());
              ladder.Abs() == if l.InRange(ladder.Cfg(), x.price) || l.levels == map[]
                              then Set(ladder.Cfg(), l, x.price, x.qty) else l
    {
      ladder.InRangeFits(x.price);
      ladder.ActiveCountIsSize();
      if ladder.InRange(x.price) || ladder.ActiveCount() == 0 {
        var _ := ladder.Set(x.price, x.qty);
      }
    }

    /** Loads one cleared ladder, skipping what falls outside the window of the first level. */
    static method LoadLadder(ladder: PriceLadder, levels: seq<Level>)
      requires ladder.Valid() && ladder.Abs() == EMPTY
      requires LevelsOk(ladder.Cfg(), levels) && forall i :: 0 <= i < |levels| ==> levels[i].qty > 0
      modifies ladder, ladder.qtys
      ensures ladder.Valid() && ladder.qtys == old(ladder.qtys)
      ensures ladder.Abs() == Load(ladder.Cfg(), levels)
    {
      for i := 0 to |levels|
        invariant ladder.Valid() && ladder.qtys == old(ladder.qtys)
        invariant ladder.Abs() == Load(ladder.Cfg(), levels[..i])
      {
        assert levels[..i + 1][..i] == levels[..i];
        LoadLevel(ladder, levels[i]);
      }
      assert levels[..|levels|] == levels;
    }

    method ReloadLadders(newBids: seq<Level>, newAsks: seq<Level>)
      requires LaddersOk() && LevelsOk(Ps().c, newBids) && LevelsOk(Ps().c, newAsks)
      requires forall i :: 0 <= i < |newBids| ==> newBids[i].qty > 0
      requires forall i :: 0 <= i < |newAsks| ==> newAsks[i].qty > 0
      modifies bidLadder, bidLadder.qtys, askLadder, askLadder.qtys
      ensures LaddersOk() && bidLadder.qtys == old(bidLadder.qtys) && askLadder.qtys == old(askLadder.qtys)
      ensures bidLadder.Abs() == Load(Ps().c, newBids) && askLadder.Abs() == Load(Ps().c, newAsks)
    {
      bidLadder.Clear();
      askLadder.Clear();
      LoadLadder(bidLadder, newBids);
      LoadLadder(askLadder, newAsks);
    }

    method RebuildViews()
      requires LaddersOk()
      modifies this`ofiBids, this`ofiAsks
      ensures Valid()
    {
      ofiBids := [];
      ofiAsks := [];
      RebuildOfiSide(true);
      RebuildOfiSide(false);
    }

    method ApplySnapshot(s: Depth)
      requires Valid() && DepthOk(Ps().c, s)
      modifies this, bidLadder, bidLadder.qtys, askLadder, askLadder.qtys
      ensures Valid() && bidLadder.qtys == old(bidLadder.qtys) && askLadder.qtys == old(askLadder.qtys)
      ensures Abs() == Snapshot(Ps().c, s)
    {
      var newAsks := KeepPositive(s.asks, Ps().c);
      var newBids := KeepPositive(s.bids, Ps().c);
      lastUpdateId := s.id;
      ReloadLadders(newBids, newAsks);
      RebuildViews();
      snapshotApplied := true;
    }

    method Clear()
      requires Valid()
      modifies this, bidLadder, bidLadder.qtys, askLadder, askLadder.qtys
      ensures Valid() && bidLadder.qtys == old(bidLadder.qtys) && askLadder.qtys == old(askLadder.qtys)
      ensures Abs() == Book(LadderSpec.Ladder(None, map[]), LadderSpec.Ladder(None, map[]), 0, false)
    {
      lastUpdateId := 0;
      snapshotApplied := false;
      bidLadder.Clear();
      askLadder.Clear();
      ofiBids := [];
      ofiAsks := [];
    }

    /** The full book for subscribers: both sides complete and best first; each view is its
        front. */
    method GetSnapshot() returns (applied: bool, asks: seq<Level>, bids: seq<Level>)
      requires Valid()
      ensures applied == Abs().applied
      ensures applied ==> Lists(false, askLadder.levels, asks) && Lists(true, bidLadder.levels, bids)
      ensures applied ==> ofiAsks == asks[..if |asks| < ofiDepth then |asks| else ofiDepth]
      ensures applied ==> ofiBids == bids[..if |bids| < ofiDepth then |bids| else ofiDepth]
      ensures !applied ==> asks == [] && bids == []
    {
      asks, bids, applied := [], [], snapshotApplied;
      if !applied {
        return;
      }
      asks := askLadder.ForEach();
      bids := bidLadder.ForEach();
      ReversedLists(bidLadder.levels, bids);
      bids := Reversed(bids);
      TopIsPrefix(false, askLadder.levels, asks, ofiDepth);
      TopIsPrefix(true, bidLadder.levels, bids, ofiDepth);
    }

    static lemma HeadIsBest(isBid: bool, m: map<int, int>, k: nat)
      ensures k > 0 ==> IsBestOf(isBid, m, FirstPrice(Top(isBid, m, k)))
      ensures k == 0 ==> Top(isBid, m, k) == []
    {
    }

    /** The integer part of `getStats`: level counts, and best prices or 0. */
    method GetStats() returns (asksCount: nat, bidsCount: nat, bestAsk: int, bestBid: int)
      requires Valid()
      ensures asksCount == |askLadder.levels| && bidsCount == |bidLadder.levels|
      ensures ofiDepth > 0 ==> IsBestOf(false, askLadder.levels, bestAsk) && IsBestOf(true, bidLadder.levels, bestBid)
      ensures ofiDepth == 0 ==> bestAsk == 0 && bestBid == 0
    {
      askLadder.ActiveCountIsSize();
      bidLadder.ActiveCountIsSize();
      asksCount, bidsCount := askLadder.ActiveCount(), bidLadder.ActiveCount();
      bestAsk := if ofiAsks != [] then ofiAsks[0].price else 0;
      bestBid := if ofiBids != [] then ofiBids[0].price else 0;
      HeadIsBest(false, askLadder.levels, ofiDepth);
      HeadIsBest(true, bidLadder.levels, ofiDepth);
    }
  }
}
