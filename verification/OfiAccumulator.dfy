/** The update callback of src/main.cpp: folds deltas into an order flow imbalance with
    saturating arithmetic and adds it to the symbol's accumulator. */
module OfiAccumulator {
  import opened Int64
  import opened LadderSpec
  import opened BookSpec
  import opened Conservation
  import History

  function CheckedAdd(a: int64, b: int64): int64 {
    if b > 0 && a > MAX - b then MAX
    else if b < 0 && a < MIN - b then MIN
    else a + b
  }

  function CheckedSubtract(a: int64, b: int64): int64 {
    if b < 0 && a > MAX + b then MAX
    else if b > 0 && a < MIN + b then MIN
    else a - b
  }

  function Clamp(x: int): int64 {
    if x > MAX then MAX else if x < MIN then MIN else x
  }

  lemma CheckedClamps(a: int64, b: int64)
    ensures CheckedAdd(a, b) == Clamp(a + b) && CheckedSubtract(a, b) == Clamp(a - b)
    ensures CheckedAdd(a, b) == a + b <==> Fits(a + b)
    ensures CheckedSubtract(a, b) == a - b <==> Fits(a - b)
  {
  }

  ghost predicate DeltasFit(ds: seq<LevelDelta>) {
    forall i :: 0 <= i < |ds| ==> Fits(ds[i].deltaQty)
  }

  /** The saturating fold, delta by delta. */
  ghost function Fold(ds: seq<LevelDelta>): int64
    requires DeltasFit(ds)
  {
    if ds == [] then 0
    else
      var n := |ds| - 1;
      var ofi, d := Fold(ds[..n]), ds[n];
      if IsCounted(d) then
        if d.isBid then CheckedAdd(ofi, d.deltaQty) else CheckedSubtract(ofi, d.deltaQty)
      else ofi
  }

  class Accumulator {
    var value: int64

    constructor ()
      ensures value == 0
    {
      value := 0;
    }

    /** The loop over the deltas. */
    static method FoldDeltas(ds: seq<LevelDelta>) returns (ofi: int64, hasOfiDelta: bool)
      requires DeltasFit(ds)
      ensures ofi == Fold(ds)
      ensures hasOfiDelta <==> exists i :: 0 <= i < |ds| && IsCounted(ds[i])
      ensures !hasOfiDelta ==> ofi == 0
    {
      ofi := 0;
      hasOfiDelta := false;
      for i := 0 to |ds|
        invariant ofi == Fold(ds[..i])
        invariant hasOfiDelta <==> exists j :: 0 <= j < i && IsCounted(ds[j])
        invariant !hasOfiDelta ==> ofi == 0
      {
        var d := ds[i];
        assert ds[..i + 1][..i] == ds[..i];
        if IsCounted(d) {
          ofi := if d.isBid then CheckedAdd(ofi, d.deltaQty) else CheckedSubtract(ofi, d.deltaQty);
          hasOfiDelta := true;
        }
      }
      assert ds[..|ds|] == ds;
    }

    /** One callback; the compare-exchange loop is one atomic step. */
    method OnUpdate(ds: seq<LevelDelta>)
      requires DeltasFit(ds)
      modifies this
      ensures value == CheckedAdd(old(value), Fold(ds))
    {
      var ofi, hasOfiDelta := FoldDeltas(ds);
      if hasOfiDelta {
        value := CheckedAdd(value, ofi);
      }
    }
  }

  lemma {:induction false} FoldExact(ds: seq<LevelDelta>, n: nat)
    requires DeltasFit(ds) && n <= |ds|
    requires forall i :: 0 <= i <= n ==> Fits(CountedSum(ds[..i]))
    ensures Fold(ds[..n]) == CountedSum(ds[..n])
  {
    if n == 0 {
    } else {
      FoldExact(ds, n - 1);
      assert ds[..n][..n - 1] == ds[..n - 1];
      CheckedClamps(Fold(ds[..n - 1]), ds[n - 1].deltaQty);
      assert Fits(CountedSum(ds[..n]));
    }
  }

  /** The saturating fold is the exact sum at every step just when every partial sum fits. */
  lemma {:induction false} FoldExactIff(ds: seq<LevelDelta>)
    requires DeltasFit(ds)
    ensures (forall n :: 0 <= n <= |ds| ==> Fits(CountedSum(ds[..n]))) <==>
            (forall n :: 0 <= n <= |ds| ==> Fold(ds[..n]) == CountedSum(ds[..n]))
  {
    if forall n :: 0 <= n <= |ds| ==> Fits(CountedSum(ds[..n])) {
      forall n | 0 <= n <= |ds|
        ensures Fold(ds[..n]) == CountedSum(ds[..n])
      {
        FoldExact(ds, n);
      }
    }
  }

  // ---------------------------------------------------------------- runs of callbacks

  /** The exact sum of everything counted in a run of callbacks. */
  function CallSum(dss: seq<seq<LevelDelta>>): int {
    if dss == [] then 0 else CallSum(dss[..|dss| - 1]) + CountedSum(dss[|dss| - 1])
  }

  ghost predicate AllFit(dss: seq<seq<LevelDelta>>) {
    forall i :: 0 <= i < |dss| ==> DeltasFit(dss[i])
  }

  /** The accumulator after a run of callbacks that started at `acc`. */
  ghost function Called(acc: int64, dss: seq<seq<LevelDelta>>): int64
    requires AllFit(dss)
  {
    if dss == [] then acc else CheckedAdd(Called(acc, dss[..|dss| - 1]), Fold(dss[|dss| - 1]))
  }

  /** No sum inside a callback and no value of the accumulator leaves the 64 bits. */
  ghost predicate NeverSaturates(acc: int, dss: seq<seq<LevelDelta>>) {
    dss == [] ||
    var n := |dss| - 1;
    && NeverSaturates(acc, dss[..n])
    && (forall i :: 0 <= i <= |dss[n]| ==> Fits(CountedSum(dss[n][..i])))
    && Fits(acc + CallSum(dss))
  }

  /** Without saturation the accumulator has the exact sum. */
  lemma {:induction false} CalledExactly(acc: int64, dss: seq<seq<LevelDelta>>)
    requires AllFit(dss) && NeverSaturates(acc, dss)
    ensures Called(acc, dss) == acc + CallSum(dss)
  {
    if dss == [] {
    } else {
      var n := |dss| - 1;
      CalledExactly(acc, dss[..n]);
      FoldExact(dss[n], |dss[n]|);
      assert dss[n][..|dss[n]|] == dss[n];
      CheckedClamps(Called(acc, dss[..n]), Fold(dss[n]));
    }
  }

  predicate QtysFit(v: seq<Levels.Level>) {
    forall i :: 0 <= i < |v| ==> 0 <= v[i].qty <= MAX
  }

  lemma ViewQtysFit(ps: Params, isBid: bool, l: Ladder)
    requires ps.c.Valid() && l.Valid(ps.c)
    ensures QtysFit(Levels.Top(isBid, l.levels, ps.depth))
  {
    Levels.TopIsTop(isBid, l.levels, ps.depth);
  }

  lemma ReportFits(k: nat, isBid: bool, kind: EventKind, v0: seq<Levels.Level>, v1: seq<Levels.Level>,
                   p: int, prev: int, q: int)
    requires QtysFit(v0) && QtysFit(v1) && 0 <= prev <= MAX && 0 <= q <= MAX
    ensures DeltasFit(Report(k, isBid, kind, v0, v1, p, prev, q))
  {
    var out := Leaves(isBid, Secondary(kind), Evicted(k, v0, v1, p));
    var into := Enters(isBid, Secondary(kind), Replacement(k, v0, v1, p));
    assert DeltasFit(out) && DeltasFit(into);
  }

  lemma DeltasOfChangeFit(ps: Params, isBid: bool, kind: EventKind, l: Ladder, p: int, q: int)
    requires ps.c.Valid() && l.Valid(ps.c) && ps.c.PriceOk(p) && 0 <= q <= MAX
    ensures DeltasFit(Deltas(ps, isBid, kind, l, p, q))
  {
    var l' := Change(ps.c, isBid, l, p, q);
    if !IsDropped(ps.c, isBid, l, p) && q != Get(l.levels, p) {
      SetValid(ps.c, l, p, q);
      ViewQtysFit(ps, isBid, l);
      ViewQtysFit(ps, isBid, l');
      ReportFits(ps.depth, isBid, kind, ViewBefore(ps, isBid, l, p, q), Levels.Top(isBid, l'.levels, ps.depth),
                 p, Get(l.levels, p), q);
    }
  }

  /** Quantities are never negative, so every delta is a difference that fits 64 bits. */
  lemma {:induction false} DeltasOfBatchFit(ps: Params, kind: EventKind, b: Book, es: seq<Edit>)
    requires ps.c.Valid() && b.Valid(ps) && EditsOk(ps.c, es)
    ensures DeltasFit(AllDeltas(ps, kind, b, es))
  {
    if es == [] {
    } else {
      var n := |es| - 1;
      var e, a := es[n], ApplyAll(ps.c, b, es[..n]);
      DeltasOfBatchFit(ps, kind, b, es[..n]);
      ApplyAllValid(ps, b, es[..n]);
      assert EditOk(ps.c, e);
      DeltasOfChangeFit(ps, e.isBid, kind, a.Side(e.isBid), e.price, e.qty);
    }
  }

  // ---------------------------------------------------------------- runs of batches

  /** The book after a run of batches. */
  ghost function RunBook(c: Config, b: Book, bs: seq<seq<Edit>>): Book {
    if bs == [] then b else ApplyAll(c, RunBook(c, b, bs[..|bs| - 1]), bs[|bs| - 1])
  }

  /** The deltas that the callback gets for each batch of a run. */
  ghost function BatchCalls(ps: Params, b: Book, bs: seq<seq<Edit>>): seq<seq<LevelDelta>> {
    if bs == [] then []
    else
      var n := |bs| - 1;
      BatchCalls(ps, b, bs[..n]) + [AllDeltas(ps, Genuine, RunBook(ps.c, b, bs[..n]), bs[n])]
  }

  ghost function RunDrift(ps: Params, b: Book, bs: seq<seq<Edit>>): int {
    if bs == [] then 0
    else
      var n := |bs| - 1;
      RunDrift(ps, b, bs[..n]) + BatchDrift(ps, RunBook(ps.c, b, bs[..n]), bs[n])
  }

  ghost predicate RunMoves(c: Config, b: Book, bs: seq<seq<Edit>>) {
    bs != [] &&
    var n := |bs| - 1;
    RunMoves(c, b, bs[..n]) || BatchMoves(c, RunBook(c, b, bs[..n]), bs[n])
  }

  ghost predicate RunOk(c: Config, bs: seq<seq<Edit>>)
    requires c.tick > 0
  {
    forall i :: 0 <= i < |bs| ==> EditsOk(c, bs[i])
  }

  /** Over a whole run what is counted is exactly the change of the balance on view, plus what
      moving windows left behind. */
  lemma {:induction false} RunConserves(ps: Params, b: Book, bs: seq<seq<Edit>>)
    requires ps.c.Valid() && b.Valid(ps) && RunOk(ps.c, bs)
    ensures RunBook(ps.c, b, bs).Valid(ps) && AllFit(BatchCalls(ps, b, bs))
    ensures CallSum(BatchCalls(ps, b, bs)) == Balance(ps, RunBook(ps.c, b, bs)) - Balance(ps, b) + RunDrift(ps, b, bs)
  {
    if bs == [] {
    } else {
      var n := |bs| - 1;
      var a, dss := RunBook(ps.c, b, bs[..n]), BatchCalls(ps, b, bs);
      RunConserves(ps, b, bs[..n]);
      assert EditsOk(ps.c, bs[n]);
      ApplyAllValid(ps, a, bs[n]);
      DeltasOfBatchFit(ps, Genuine, a, bs[n]);
      BatchCounts(ps, Genuine, a, bs[n]);
      assert dss[..|dss| - 1] == BatchCalls(ps, b, bs[..n]);
    }
  }

  lemma {:induction false} NoRunDrift(ps: Params, b: Book, bs: seq<seq<Edit>>)
    requires !RunMoves(ps.c, b, bs)
    ensures RunDrift(ps, b, bs) == 0
  {
    if bs == [] {
    } else {
      var n := |bs| - 1;
      NoRunDrift(ps, b, bs[..n]);
      NoMoveNoDrift(ps, RunBook(ps.c, b, bs[..n]), bs[n]);
    }
  }

  /** The accumulator of a run of batches grows by that much; while no window moves it mirrors the balance on view. */
  lemma RunAccumulates(ps: Params, b: Book, acc: int64, bs: seq<seq<Edit>>)
    requires ps.c.Valid() && b.Valid(ps) && RunOk(ps.c, bs) && NeverSaturates(acc, BatchCalls(ps, b, bs))
    ensures AllFit(BatchCalls(ps, b, bs))
    ensures var gain, change := Called(acc, BatchCalls(ps, b, bs)) - acc, Balance(ps, RunBook(ps.c, b, bs)) - Balance(ps, b);
            gain == change + RunDrift(ps, b, bs) && (!RunMoves(ps.c, b, bs) ==> gain == change)
  {
    RunConserves(ps, b, bs);
    CalledExactly(acc, BatchCalls(ps, b, bs));
    if !RunMoves(ps.c, b, bs) {
      NoRunDrift(ps, b, bs);
    }
  }

  // ---------------------------------------------------------------- runs of sequenced updates

  /** What of an update is applied: nothing of a stale or refused one. */
  function AppliedEdits(b: Book, d: Diff): seq<Edit> {
    if IsStale(b, d) || IsGap(b, d) then [] else d.Batch()
  }

  function Batches(c: Config, b: Book, ds: seq<Diff>): seq<seq<Edit>> {
    if ds == [] then []
    else
      var n := |ds| - 1;
      Batches(c, b, ds[..n]) + [AppliedEdits(History.RunDiffs(c, b, ds[..n]), ds[n])]
  }

  /** The deltas that the callback gets for each update of a run. */
  ghost function UpdateCalls(ps: Params, b: Book, ds: seq<Diff>): seq<seq<LevelDelta>> {
    if ds == [] then []
    else
      var n := |ds| - 1;
      UpdateCalls(ps, b, ds[..n]) + [UpdateDeltas(ps, Genuine, History.RunDiffs(ps.c, b, ds[..n]), ds[n])]
  }

  /** The sequence number plays no part in applying a batch, nor in what is reported. */
  lemma {:induction false} IdPlaysNoPart(ps: Params, kind: EventKind, b: Book, es: seq<Edit>, id: int)
    ensures ApplyAll(ps.c, b.(lastId := id), es) == ApplyAll(ps.c, b, es).(lastId := id)
    ensures AllDeltas(ps, kind, b.(lastId := id), es) == AllDeltas(ps, kind, b, es)
  {
    if es == [] {
    } else {
      IdPlaysNoPart(ps, kind, b, es[..|es| - 1], id);
    }
  }

  lemma UpdateIsBatch(ps: Params, b: Book, d: Diff, id: int)
    ensures ApplyAll(ps.c, b.(lastId := id), AppliedEdits(b, d)) == Update(ps.c, b, d).(lastId := id)
    ensures AllDeltas(ps, Genuine, b.(lastId := id), AppliedEdits(b, d)) == UpdateDeltas(ps, Genuine, b, d)
  {
    IdPlaysNoPart(ps, Genuine, b, AppliedEdits(b, d), id);
  }

  /** A run of updates is a run of batches: the same books, but for the sequence number, and the same
      deltas for each callback. */
  lemma {:induction false} UpdatesAreBatches(ps: Params, b: Book, ds: seq<Diff>)
    ensures |Batches(ps.c, b, ds)| == |ds|
    ensures RunBook(ps.c, b, Batches(ps.c, b, ds)) == History.RunDiffs(ps.c, b, ds).(lastId := b.lastId)
    ensures BatchCalls(ps, b, Batches(ps.c, b, ds)) == UpdateCalls(ps, b, ds)
  {
    if ds == [] {
    } else {
      var n := |ds| - 1;
      UpdatesAreBatches(ps, b, ds[..n]);
      assert Batches(ps.c, b, ds)[..n] == Batches(ps.c, b, ds[..n]);
      UpdateIsBatch(ps, History.RunDiffs(ps.c, b, ds[..n]), ds[n], b.lastId);
    }
  }

  lemma {:induction false} BatchesOk(c: Config, b: Book, ds: seq<Diff>)
    requires c.tick > 0 && forall i :: 0 <= i < |ds| ==> DiffOk(c, ds[i])
    ensures RunOk(c, Batches(c, b, ds))
  {
    if ds == [] {
    } else {
      BatchesOk(c, b, ds[..|ds| - 1]);
    }
  }

  /** Over a whole run of sequenced updates, stale and refused ones among them, the accumulator grows
      by exactly the change of the balance on view, plus what moving windows left behind; while no
      window moves it mirrors the balance. */
  lemma UpdatesConserve(ps: Params, b: Book, acc: int64, ds: seq<Diff>)
    requires ps.c.Valid() && b.Valid(ps) && forall i :: 0 <= i < |ds| ==> DiffOk(ps.c, ds[i])
    requires NeverSaturates(acc, UpdateCalls(ps, b, ds))
    ensures AllFit(UpdateCalls(ps, b, ds))
    ensures var gain := Called(acc, UpdateCalls(ps, b, ds)) - acc;
            var change := Balance(ps, History.RunDiffs(ps.c, b, ds)) - Balance(ps, b);
            && gain == change + RunDrift(ps, b, Batches(ps.c, b, ds))
            && (!RunMoves(ps.c, b, Batches(ps.c, b, ds)) ==> gain == change)
  {
    UpdatesAreBatches(ps, b, ds);
    BatchesOk(ps.c, b, ds);
    RunAccumulates(ps, b, acc, Batches(ps.c, b, ds));
  }
}
