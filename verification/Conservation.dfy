/** The deltas account for the views: exactly while the window stays, and up to the levels that a
    moving window leaves behind when it does not. */
module Conservation {
  import opened Int64
  import opened Levels
  import opened LadderSpec
  import opened OfiView
  import opened BookSpec

  /** Only what happens on view counts, and nothing that is replayed. */
  predicate IsCounted(d: LevelDelta) {
    d.kind != Backfill && (d.wasInView || d.inOfiView)
  }

  function Signed(isBid: bool, q: int): int {
    if isBid then q else -q
  }

  /** What a consumer adds to its order flow imbalance for one delta. */
  function Counted(d: LevelDelta): int {
    if IsCounted(d) then Signed(d.isBid, d.deltaQty) else 0
  }

  function CountedSum(ds: seq<LevelDelta>): int {
    if ds == [] then 0 else CountedSum(ds[..|ds| - 1]) + Counted(ds[|ds| - 1])
  }

  /** Quantity on view: bids minus asks. */
  ghost function Balance(ps: Params, b: Book): int {
    Total(b.View(ps, true)) - Total(b.View(ps, false))
  }

  lemma {:induction false} CountedSumAppend(a: seq<LevelDelta>, b: seq<LevelDelta>)
    ensures CountedSum(a + b) == CountedSum(a) + CountedSum(b)
  {
    if b == [] {
      assert a + b == a;
    } else {
      var n := |b| - 1;
      assert (a + b)[..|a + b| - 1] == a + b[..n];
      CountedSumAppend(a, b[..n]);
    }
  }

  // ---------------------------------------------------------------- totals of edited views

  lemma TotalSplit(v: seq<Level>, i: nat)
    requires i < |v|
    ensures Total(v) == Total(v[..i]) + v[i].qty + Total(v[i + 1..])
  {
    var tail := v[i..];
    assert v == v[..i] + tail;
    TotalAppend(v[..i], tail);
    assert tail[0] == v[i] && tail[1..] == v[i + 1..];
  }

  lemma TotalReplace(v: seq<Level>, i: nat, l: Level)
    requires i < |v|
    ensures Total(v[i := l]) == Total(v) - v[i].qty + l.qty
  {
    var w := v[i := l];
    TotalSplit(v, i);
    TotalSplit(w, i);
    assert w[..i] == v[..i] && w[i + 1..] == v[i + 1..];
  }

  lemma TotalErase(v: seq<Level>, i: nat)
    requires i < |v|
    ensures Total(Erase(v, i)) == Total(v) - v[i].qty
  {
    TotalSplit(v, i);
    TotalAppend(v[..i], v[i + 1..]);
  }

  lemma TotalInsert(v: seq<Level>, i: nat, l: Level)
    requires i <= |v|
    ensures Total(Insert(v, i, l)) == Total(v) + l.qty
  {
    var w := Insert(v, i, l);
    TotalSplit(w, i);
    assert w[..i] == v[..i] && w[i + 1..] == v[i..];
    assert v == v[..i] + v[i..];
    TotalAppend(v[..i], v[i..]);
  }

  lemma TotalLast(v: seq<Level>)
    requires v != []
    ensures Total(v) == Total(v[..|v| - 1]) + v[|v| - 1].qty
  {
    var n := |v| - 1;
    assert v == v[..n] + [v[n]];
    TotalAppend(v[..n], [v[n]]);
    TotalOne(v[n]);
  }

  ghost function LowerBound(isBid: bool, v: seq<Level>, p: int): (i: nat)
    requires Sorted(isBid, v)
    ensures IsLowerBound(isBid, v, p, i)
  {
    if v == [] then 0
    else if Better(isBid, v[|v| - 1].price, p) then |v|
    else LowerBound(isBid, v[..|v| - 1], p)
  }

  ghost function NextAfter(isBid: bool, m: map<int, int>, p: int): (r: int)
    ensures IsNextAfter(isBid, m, p, r)
  {
    var worse := set q | q in m && Better(isBid, p, q);
    if worse == {} then
      assert forall q :: q in m && Better(isBid, p, q) ==> q in worse;
      0
    else Best(isBid, worse)
  }

  ghost function BestOf(isBid: bool, m: map<int, int>): (r: int)
    ensures IsBestOf(isBid, m, r)
  {
    if m.Keys == {} then 0 else Best(isBid, m.Keys)
  }

  // ---------------------------------------------------------------- one change, window fixed

  /** A change as reported: the level itself, what it pushed out, and what took its place. */
  function Impact(k: nat, v0: seq<Level>, v1: seq<Level>, p: int, prev: int, q: int): int {
    (if InView(v0, p) || InView(v1, p) then q - prev else 0)
    - Total(Evicted(k, v0, v1, p)) + Total(Replacement(k, v0, v1, p))
  }

  /** ... which is the change of the view's total. */
  ghost predicate Accounts(k: nat, v0: seq<Level>, v1: seq<Level>, p: int, prev: int, q: int) {
    Total(v1) - Total(v0) == Impact(k, v0, v1, p, prev, q)
  }

  lemma ReplaceAccounts(isBid: bool, m: map<int, int>, k: nat, v: seq<Level>, i: nat, q: int)
    requires IsTop(isBid, m, k, v) && i < |v| && q > 0
    ensures Accounts(k, v, Top(isBid, Put(m, v[i].price, q), k), v[i].price, m[v[i].price], q)
  {
    var p := v[i].price;
    var w := v[i := Level(p, q)];
    ReplaceQty(isBid, m, k, v, i, q);
    TopIsUnique(isBid, m[p := q], k, w);
    TotalReplace(v, i, Level(p, q));
    assert w[i].price == p;
  }

  lemma ShrinkAccounts(isBid: bool, k: nat, v: seq<Level>, i: nat)
    requires Sorted(isBid, v) && i < |v| <= k
    ensures Accounts(k, v, Erase(v, i), v[i].price, v[i].qty, 0)
  {
    ErasePrices(isBid, v, i);
    TotalErase(v, i);
  }

  lemma RefillAccounts(isBid: bool, k: nat, v: seq<Level>, i: nat, l: Level)
    requires Sorted(isBid, v) && i < |v| == k && l.price != v[i].price
    ensures Accounts(k, v, Erase(v, i) + [l], v[i].price, v[i].qty, 0)
  {
    var e := Erase(v, i);
    ErasePrices(isBid, v, i);
    TotalErase(v, i);
    InViewAppend(e, l, v[i].price);
    TotalAppend(e, [l]);
    assert (e + [l])[k - 1..] == [l];
  }

  lemma EraseAccounts(isBid: bool, m: map<int, int>, k: nat, v: seq<Level>, i: nat)
    requires IsTop(isBid, m, k, v) && i < |v| && 0 !in m
    ensures Accounts(k, v, Top(isBid, Put(m, v[i].price, 0), k), v[i].price, m[v[i].price], 0)
  {
    var p, e := v[i].price, Erase(v, i);
    var m' := m - {p};
    var r := if e == [] then BestOf(isBid, m') else NextAfter(isBid, m', e[|e| - 1].price);
    EraseRefill(isBid, m, k, v, i, r);
    TopIsUnique(isBid, m', k, if r == 0 then e else e + [Level(r, m[r])]);
    if r == 0 {
      ShrinkAccounts(isBid, k, v, i);
    } else {
      RefillAccounts(isBid, k, v, i, Level(r, m[r]));
    }
  }

  lemma RoomAccounts(isBid: bool, k: nat, v: seq<Level>, i: nat, l: Level)
    requires Sorted(isBid, v) && IsLowerBound(isBid, v, l.price, i) && !InView(v, l.price) && |v| < k
    ensures Accounts(k, v, Insert(v, i, l), l.price, 0, l.qty)
  {
    InsertPrices(isBid, v, i, l);
    TotalInsert(v, i, l);
  }

  lemma EvictAccounts(isBid: bool, k: nat, v: seq<Level>, i: nat, l: Level)
    requires Sorted(isBid, v) && IsLowerBound(isBid, v, l.price, i) && !InView(v, l.price)
    requires |v| == k && i < k && Insert(v, i, l)[k] == v[k - 1]
    ensures Accounts(k, v, Insert(v, i, l)[..k], l.price, 0, l.qty)
  {
    var w := Insert(v, i, l);
    InsertPrices(isBid, v, i, l);
    TotalInsert(v, i, l);
    TotalLast(w);
    assert w[..k][i].price == l.price;
    assert v[k - 1..] == [v[k - 1]];
    TotalOne(v[k - 1]);
  }

  lemma InsertAccounts(isBid: bool, m: map<int, int>, k: nat, v: seq<Level>, p: int, q: int)
    requires IsTop(isBid, m, k, v) && !InView(v, p) && q > 0
    requires |v| < k || (|v| == k > 0 && Better(isBid, p, v[k - 1].price))
    ensures Accounts(k, v, Top(isBid, Put(m, p, q), k), p, Get(m, p), q)
  {
    var i := LowerBound(isBid, v, p);
    if |v| < k {
      InsertFits(isBid, m, k, v, i, Level(p, q));
      TopIsUnique(isBid, Put(m, p, q), k, Insert(v, i, Level(p, q)));
      RoomAccounts(isBid, k, v, i, Level(p, q));
    } else {
      InsertEvict(isBid, m, k, v, i, Level(p, q));
      TopIsUnique(isBid, Put(m, p, q), k, Insert(v, i, Level(p, q))[..k]);
      EvictAccounts(isBid, k, v, i, Level(p, q));
    }
  }

  lemma OutsideAccounts(isBid: bool, m: map<int, int>, k: nat, v: seq<Level>, p: int, q: int)
    requires IsTop(isBid, m, k, v) && !InView(v, p)
    requires q == 0 || (|v| == k && (k > 0 ==> !Better(isBid, p, v[k - 1].price)))
    ensures Accounts(k, v, Top(isBid, Put(m, p, q), k), p, Get(m, p), q)
  {
    StaysOutside(isBid, m, k, v, p, q);
    TopIsUnique(isBid, Put(m, p, q), k, v);
  }

  lemma ViewAccounts(isBid: bool, m: map<int, int>, k: nat, p: int, q: int)
    requires 0 !in m && q >= 0
    ensures Accounts(k, Top(isBid, m, k), Top(isBid, Put(m, p, q), k), p, Get(m, p), q)
  {
    var v := Top(isBid, m, k);
    TopIsTop(isBid, m, k);
    if i :| 0 <= i < |v| && v[i].price == p {
      if q > 0 {
        ReplaceAccounts(isBid, m, k, v, i, q);
      } else {
        EraseAccounts(isBid, m, k, v, i);
      }
    } else if q > 0 && (|v| < k || (k > 0 && Better(isBid, p, v[k - 1].price))) {
      InsertAccounts(isBid, m, k, v, p, q);
    } else {
      OutsideAccounts(isBid, m, k, v, p, q);
    }
  }

  // ---------------------------------------------------------------- who enters and who leaves

  /** Apart from `p` itself, the view loses what is evicted, gains what is the replacement, which it
      did not have, and is otherwise unchanged. */
  ghost predicate Explains(k: nat, v0: seq<Level>, v1: seq<Level>, p: int) {
    forall x :: x != p ==>
      && (InView(v1, x) <==> (InView(v0, x) && !InView(Evicted(k, v0, v1, p), x)) || InView(Replacement(k, v0, v1, p), x))
      && (InView(Replacement(k, v0, v1, p), x) ==> !InView(v0, x))
  }

  lemma SamePricesExplain(k: nat, v0: seq<Level>, v1: seq<Level>, p: int)
    requires |v0| == |v1| && forall i :: 0 <= i < |v0| ==> v0[i].price == v1[i].price
    ensures Explains(k, v0, v1, p)
  {
    SamePrices(v0, v1, p);
    forall x | x != p
      ensures InView(v1, x) <==> InView(v0, x)
    {
      SamePrices(v0, v1, x);
    }
  }

  lemma InViewOne(l: Level, x: int)
    ensures InView([l], x) <==> l.price == x
  {
    assert [l][0] == l;
  }

  lemma RefillExplains(k: nat, v: seq<Level>, e: seq<Level>, p: int, l: Level)
    requires InView(v, p) && |e| + 1 == k && l.price != p && !InView(e, l.price)
    requires forall x :: InView(e, x) <==> InView(v, x) && x != p
    ensures Explains(k, v, e + [l], p)
  {
    var w := e + [l];
    InViewAppend(e, l, p);
    assert w[k - 1..] == [l] && Replacement(k, v, w, p) == [l];
    forall x | x != p
      ensures (InView(w, x) <==> InView(v, x) || InView([l], x)) && (InView([l], x) ==> !InView(v, x))
    {
      InViewAppend(e, l, x);
      InViewOne(l, x);
    }
  }

  lemma LastIsNotInFront(isBid: bool, w: seq<Level>)
    requires Sorted(isBid, w) && w != []
    ensures !InView(w[..|w| - 1], w[|w| - 1].price)
  {
  }

  lemma EraseExplains(isBid: bool, m: map<int, int>, k: nat, v: seq<Level>, i: nat)
    requires IsTop(isBid, m, k, v) && i < |v| && 0 !in m
    ensures Explains(k, v, Top(isBid, Put(m, v[i].price, 0), k), v[i].price)
  {
    var p, e := v[i].price, Erase(v, i);
    var m' := m - {p};
    var r := if e == [] then BestOf(isBid, m') else NextAfter(isBid, m', e[|e| - 1].price);
    EraseRefill(isBid, m, k, v, i, r);
    ErasePrices(isBid, v, i);
    TopIsUnique(isBid, m', k, if r == 0 then e else e + [Level(r, m[r])]);
    if r != 0 {
      LastIsNotInFront(isBid, e + [Level(r, m[r])]);
      RefillExplains(k, v, e, p, Level(r, m[r]));
    }
  }

  lemma EvictExplains(isBid: bool, k: nat, v: seq<Level>, w: seq<Level>, p: int)
    requires |v| == k > 0 && |w| == k + 1 && w[k] == v[k - 1] && Sorted(isBid, w)
    requires !InView(v, p) && InView(w[..k], p)
    requires forall x :: InView(w, x) <==> InView(v, x) || x == p
    ensures Explains(k, v, w[..k], p)
  {
    LastIsNotInFront(isBid, w);
    assert w == w[..k] + [w[k]];
    assert Evicted(k, v, w[..k], p) == [w[k]];
    forall x | x != p
      ensures InView(w[..k], x) <==> InView(v, x) && !InView([w[k]], x)
    {
      InViewAppend(w[..k], w[k], x);
      InViewOne(w[k], x);
    }
  }

  lemma InsertExplains(isBid: bool, m: map<int, int>, k: nat, v: seq<Level>, p: int, q: int)
    requires IsTop(isBid, m, k, v) && !InView(v, p) && q > 0
    requires |v| < k || (|v| == k > 0 && Better(isBid, p, v[k - 1].price))
    ensures Explains(k, v, Top(isBid, Put(m, p, q), k), p)
  {
    var i := LowerBound(isBid, v, p);
    var w := Insert(v, i, Level(p, q));
    InsertPrices(isBid, v, i, Level(p, q));
    if |v| < k {
      InsertFits(isBid, m, k, v, i, Level(p, q));
      TopIsUnique(isBid, Put(m, p, q), k, w);
    } else {
      InsertEvict(isBid, m, k, v, i, Level(p, q));
      TopIsUnique(isBid, Put(m, p, q), k, w[..k]);
      assert w[..k][i].price == p;
      EvictExplains(isBid, k, v, w, p);
    }
  }

  /** Which levels enter and leave a view is exactly what the deltas say. */
  lemma ChangesAreExplained(isBid: bool, m: map<int, int>, k: nat, p: int, q: int)
    requires 0 !in m && q >= 0
    ensures Explains(k, Top(isBid, m, k), Top(isBid, Put(m, p, q), k), p)
  {
    var v := Top(isBid, m, k);
    TopIsTop(isBid, m, k);
    if i :| 0 <= i < |v| && v[i].price == p {
      if q > 0 {
        ReplaceQty(isBid, m, k, v, i, q);
        TopIsUnique(isBid, m[p := q], k, v[i := Level(p, q)]);
        SamePricesExplain(k, v, v[i := Level(p, q)], p);
      } else {
        EraseExplains(isBid, m, k, v, i);
      }
    } else if q > 0 && (|v| < k || (k > 0 && Better(isBid, p, v[k - 1].price))) {
      InsertExplains(isBid, m, k, v, p, q);
    } else {
      StaysOutside(isBid, m, k, v, p, q);
      TopIsUnique(isBid, Put(m, p, q), k, v);
      SamePricesExplain(k, v, v, p);
    }
  }

  lemma AtMostOne(ds: seq<LevelDelta>)
    requires |ds| <= 1
    ensures CountedSum(ds) == if ds == [] then 0 else Counted(ds[0])
  {
    if ds != [] {
      assert ds[..0] == [];
    }
  }

  lemma ReportSum(k: nat, isBid: bool, kind: EventKind, v0: seq<Level>, v1: seq<Level>,
                  p: int, prev: int, q: int)
    requires kind != Backfill
    ensures CountedSum(Report(k, isBid, kind, v0, v1, p, prev, q)) ==
            Signed(isBid, Impact(k, v0, v1, p, prev, q))
  {
    var head := [LevelDelta(p, q, q - prev, isBid, InView(v0, p), InView(v1, p), kind)];
    var ev, rp := Evicted(k, v0, v1, p), Replacement(k, v0, v1, p);
    var out, into := Leaves(isBid, Secondary(kind), ev), Enters(isBid, Secondary(kind), rp);
    CountedSumAppend(head + out, into);
    CountedSumAppend(head, out);
    AtMostOne(head);
    AtMostOne(out);
    AtMostOne(into);
    if ev != [] { TotalOne(ev[0]); assert ev == [ev[0]]; }
    if rp != [] { TotalOne(rp[0]); assert rp == [rp[0]]; }
  }

  // ---------------------------------------------------------------- one change, window moved

  /** Quantity of the levels of `v` that are no longer in `w`. */
  ghost function Missing(v: seq<Level>, w: seq<Level>): int {
    if v == [] then 0
    else Missing(v[..|v| - 1], w) + if InView(w, v[|v| - 1].price) then 0 else v[|v| - 1].qty
  }

  lemma {:induction false} MissingNone(v: seq<Level>, w: seq<Level>)
    requires forall i :: 0 <= i < |v| ==> InView(w, v[i].price)
    ensures Missing(v, w) == 0
  {
    if v == [] {
    } else {
      MissingNone(v[..|v| - 1], w);
    }
  }

  lemma {:induction false} MissingTail(v: seq<Level>, w: seq<Level>, j: nat)
    requires j <= |v|
    requires forall i :: 0 <= i < |v| ==> (InView(w, v[i].price) <==> i < j)
    ensures Missing(v, w) == Total(v) - Total(v[..j])
  {
    if v == [] {
    } else if j == |v| {
      assert v[..j] == v;
      MissingNone(v, w);
    } else {
      var n := |v| - 1;
      MissingTail(v[..n], w, j);
      assert v[..n][..j] == v[..j];
      TotalLast(v);
    }
  }

  /** How many levels at the front of a view are inside the window at `base`. */
  ghost function Survivors(c: Config, base: int, v: seq<Level>): (j: nat)
    ensures j <= |v|
  {
    if v != [] && c.InWindow(base, v[0].price) then 1 + Survivors(c, base, v[1..]) else 0
  }

  /** `m` is what is left of the side, none of it better than `p`. */
  ghost predicate Overtaken(isBid: bool, m: map<int, int>, p: int) {
    forall x :: x in m ==> Better(isBid, p, x)
  }

  lemma {:induction false} SurvivorsArePrefix(c: Config, isBid: bool, v: seq<Level>, base: int, p: int)
    requires Sorted(isBid, v) && c.InWindow(base, p)
    requires forall i :: 0 <= i < |v| ==> Better(isBid, p, v[i].price)
    ensures var j := Survivors(c, base, v);
            && (forall i :: 0 <= i < |v| ==> (c.InWindow(base, v[i].price) <==> i < j))
            && (j < |v| ==> !c.InWindow(base, v[j].price))
  {
    if v == [] || !c.InWindow(base, v[0].price) {
    } else {
      SurvivorsArePrefix(c, isBid, v[1..], base, p);
      assert forall i :: 1 <= i < |v| ==> v[i] == v[1..][i - 1];
    }
  }

  /** A window that moves towards better prices keeps the front of the old view. */
  lemma {:induction false} MovedView(c: Config, isBid: bool, m: map<int, int>, k: nat, v: seq<Level>,
                                     base: int, p: int)
    requires IsTop(isBid, m, k, v) && Overtaken(isBid, m, p) && c.InWindow(base, p)
    ensures IsTop(isBid, Restrict(c, m, base), k, v[..Survivors(c, base, v)])
  {
    var j := Survivors(c, base, v);
    SurvivorsArePrefix(c, isBid, v, base, p);
    var w := v[..j];
    forall x | x in Restrict(c, m, base) && !InView(w, x)
      ensures |w| == k && Worse(isBid, w, x)
    {
      assert forall i :: 0 <= i < j ==> w[i] == v[i];
      assert !InView(v, x);
      assert forall i :: 0 <= i < |v| ==> c.InWindow(base, v[i].price);
      assert w == v;
    }
  }

  /** The view after the window moved to `p`: the new level, if it has a quantity, in front of the
      first `j` levels of the old view. */
  ghost predicate MovedTo(k: nat, v0: seq<Level>, v1: seq<Level>, p: int, q: int, j: nat) {
    j <= |v0| && v1 == (if q > 0 && k > 0 then [Level(p, q)] else []) + v0[..j]
  }

  ghost predicate KeepsFront(k: nat, v0: seq<Level>, v1: seq<Level>, p: int, q: int) {
    exists j: nat :: j <= |v0| && MovedTo(k, v0, v1, p, q, j)
  }

  lemma FrontInsert(isBid: bool, m: map<int, int>, k: nat, w: seq<Level>, p: int, q: int)
    requires IsTop(isBid, m, k, w) && Overtaken(isBid, m, p) && k > 0
    ensures IsTop(isBid, m[p := q], k, [Level(p, q)] + w[..if |w| < k then |w| else k - 1])
  {
    var l := Level(p, q);
    assert IsLowerBound(isBid, w, p, 0) && !InView(w, p);
    assert Insert(w, 0, l) == [l] + w;
    if |w| < k {
      InsertFits(isBid, m, k, w, 0, l);
      assert w[..|w|] == w;
    } else {
      InsertEvict(isBid, m, k, w, 0, l);
      assert ([l] + w)[..k] == [l] + w[..k - 1];
    }
  }

  /** When a side with levels moves its window, the new price beats all of them. */
  lemma WindowPassed(c: Config, isBid: bool, l: Ladder, p: int)
    requires c.Valid() && l.Valid(c) && c.PriceOk(p) && Moves(c, isBid, l, p)
    ensures Overtaken(isBid, l.levels, p) && p !in l.levels
  {
    var base := l.base.value;
    CellOf(c, base, p);
    SpanParts(c);
    PriceAtMonotone(base, c.tick, c.Size() - 1, (p - base) / c.tick);
    forall x | x in l.levels
      ensures Better(isBid, p, x)
    {
      CellOf(c, base, x);
      PriceAtMonotone(base, c.tick, (x - base) / c.tick, c.Size() - 1);
    }
  }

  lemma MovedViews(c: Config, isBid: bool, l: Ladder, k: nat, p: int, q: int) returns (j: nat)
    requires c.Valid() && l.Valid(c) && c.PriceOk(p) && 0 <= q <= MAX && Moves(c, isBid, l, p)
    ensures Overtaken(isBid, l.levels, p)
    ensures MovedTo(k, Top(isBid, l.levels, k), Top(isBid, Change(c, isBid, l, p, q).levels, k), p, q, j)
  {
    CentreOk(c, p);
    SpanParts(c);
    WindowPassed(c, isBid, l, p);
    var base, v0 := c.Centre(p), Top(isBid, l.levels, k);
    var m := Restrict(c, l.levels, base);
    j := Survivors(c, base, v0);
    TopIsTop(isBid, l.levels, k);
    MovedView(c, isBid, l.levels, k, v0, base, p);
    var w := v0[..j];
    if q > 0 && k > 0 {
      FrontInsert(isBid, m, k, w, p, q);
      j := if |w| < k then |w| else k - 1;
      assert w[..j] == v0[..j];
      TopIsUnique(isBid, m[p := q], k, [Level(p, q)] + w[..j]);
    } else if q > 0 {
      TopIsUnique(isBid, m[p := q], k, []);
    } else {
      assert m - {p} == m;
      TopIsUnique(isBid, m, k, w);
      assert [] + w == w;
    }
  }

  // ---------------------------------------------------------------- the law of one change

  /** What a change leaves behind: nothing unless the window moves. */
  ghost function Drift(ps: Params, isBid: bool, l: Ladder, p: int, q: int): int {
    if Moves(ps.c, isBid, l, p) then
      Missing(Top(isBid, l.levels, ps.depth), Top(isBid, Change(ps.c, isBid, l, p, q).levels, ps.depth))
    else 0
  }

  /** What the deltas count is the change of the view's total plus the quantity left behind. */
  ghost predicate Counts(ps: Params, isBid: bool, kind: EventKind, l: Ladder, p: int, q: int) {
    CountedSum(Deltas(ps, isBid, kind, l, p, q)) ==
    Signed(isBid, Total(Top(isBid, Change(ps.c, isBid, l, p, q).levels, ps.depth))
                  - Total(Top(isBid, l.levels, ps.depth))
                  + Drift(ps, isBid, l, p, q))
  }

  lemma MovedTotal(k: nat, v0: seq<Level>, v1: seq<Level>, p: int, q: int, j: nat)
    requires MovedTo(k, v0, v1, p, q, j)
    ensures Total(v1) == (if q > 0 && k > 0 then q else 0) + Total(v0[..j])
  {
    TotalAppend(if q > 0 && k > 0 then [Level(p, q)] else [], v0[..j]);
    TotalOne(Level(p, q));
  }

  lemma MovedMissing(isBid: bool, k: nat, v0: seq<Level>, v1: seq<Level>, p: int, q: int, j: nat)
    requires Sorted(isBid, v0) && |v0| <= k && MovedTo(k, v0, v1, p, q, j)
    requires forall i :: 0 <= i < |v0| ==> v0[i].price != p
    ensures Missing(v0, v1) == Total(v0) - Total(v0[..j])
    ensures InView(v1, p) <==> q > 0 && k > 0
  {
    forall i | 0 <= i < |v0|
      ensures InView(v1, v0[i].price) <==> i < j
    {
      if i < j {
        assert v1[if q > 0 && k > 0 then i + 1 else i] == v0[i];
      }
    }
    MissingTail(v0, v1, j);
    assert q > 0 && k > 0 ==> v1[0].price == p;
  }

  lemma MovedAccounts(isBid: bool, k: nat, v0: seq<Level>, v1: seq<Level>, p: int, q: int, j: nat)
    requires Sorted(isBid, v0) && |v0| <= k && MovedTo(k, v0, v1, p, q, j) && q >= 0
    requires forall i :: 0 <= i < |v0| ==> v0[i].price != p
    ensures (if InView(v1, p) then q else 0) == Total(v1) - Total(v0) + Missing(v0, v1)
  {
    MovedMissing(isBid, k, v0, v1, p, q, j);
    MovedTotal(k, v0, v1, p, q, j);
  }

  /** After a move the change is reported against the rebuilt view, in which it already is. */
  lemma MovedDeltas(ps: Params, isBid: bool, kind: EventKind, l: Ladder, p: int, q: int)
    requires kind != Backfill && Moves(ps.c, isBid, l, p) && p !in l.levels
    ensures var v1 := Top(isBid, Change(ps.c, isBid, l, p, q).levels, ps.depth);
            CountedSum(Deltas(ps, isBid, kind, l, p, q)) == Signed(isBid, if InView(v1, p) then q else 0)
  {
    var v1 := Top(isBid, Change(ps.c, isBid, l, p, q).levels, ps.depth);
    if q != 0 {
      ReportSum(ps.depth, isBid, kind, v1, v1, p, 0, q);
    }
  }

  lemma MovedCounts(ps: Params, isBid: bool, kind: EventKind, l: Ladder, p: int, q: int)
    requires ps.c.Valid() && l.Valid(ps.c) && ps.c.PriceOk(p) && 0 <= q <= MAX && kind != Backfill
    requires Moves(ps.c, isBid, l, p)
    ensures Counts(ps, isBid, kind, l, p, q)
  {
    var j := MovedViews(ps.c, isBid, l, ps.depth, p, q);
    MovedDeltas(ps, isBid, kind, l, p, q);
    TopIsTop(isBid, l.levels, ps.depth);
    MovedAccounts(isBid, ps.depth, Top(isBid, l.levels, ps.depth),
                  Top(isBid, Change(ps.c, isBid, l, p, q).levels, ps.depth), p, q, j);
  }

  lemma KeptDeltas(ps: Params, isBid: bool, kind: EventKind, l: Ladder, p: int, q: int)
    requires !Recentres(ps.c, l, p) && q != Get(l.levels, p)
    ensures var k := ps.depth;
            var v0, v1 := Top(isBid, l.levels, k), Top(isBid, Put(l.levels, p, q), k);
            Deltas(ps, isBid, kind, l, p, q) == Report(k, isBid, kind, v0, v1, p, Get(l.levels, p), q)
  {
  }

  lemma KeptCounts(ps: Params, isBid: bool, kind: EventKind, l: Ladder, p: int, q: int)
    requires 0 !in l.levels && (forall x :: x in l.levels ==> l.levels[x] > 0)
    requires q >= 0 && kind != Backfill && !Recentres(ps.c, l, p)
    ensures Counts(ps, isBid, kind, l, p, q)
  {
    var m, k := l.levels, ps.depth;
    assert Change(ps.c, isBid, l, p, q).levels == Put(m, p, q);
    if q == Get(m, p) {
      assert Put(m, p, q) == m;
    } else {
      var v0, v1 := Top(isBid, m, k), Top(isBid, Put(m, p, q), k);
      KeptDeltas(ps, isBid, kind, l, p, q);
      ReportSum(k, isBid, kind, v0, v1, p, Get(m, p), q);
      ViewAccounts(isBid, m, k, p, q);
    }
  }

  /** The law of one change, on either side, whether the window moves or not. */
  lemma ChangeCounts(ps: Params, isBid: bool, kind: EventKind, l: Ladder, p: int, q: int)
    requires ps.c.Valid() && l.Valid(ps.c) && ps.c.PriceOk(p) && 0 <= q <= MAX && kind != Backfill
    ensures Counts(ps, isBid, kind, l, p, q)
  {
    if Moves(ps.c, isBid, l, p) {
      MovedCounts(ps, isBid, kind, l, p, q);
    } else if !IsDropped(ps.c, isBid, l, p) {
      KeptCounts(ps, isBid, kind, l, p, q);
    }
  }

  /** The levels that leave the view when the window moves are those that are worse than every
      level that stays: the new view without `p` is the front of the old one. */
  lemma MovedViewKeepsFront(ps: Params, isBid: bool, l: Ladder, p: int, q: int)
    requires ps.c.Valid() && l.Valid(ps.c) && ps.c.PriceOk(p) && 0 <= q <= MAX
    requires Moves(ps.c, isBid, l, p)
    ensures var v0, v1 := Top(isBid, l.levels, ps.depth),
                          Top(isBid, Change(ps.c, isBid, l, p, q).levels, ps.depth);
            && KeepsFront(ps.depth, v0, v1, p, q)
            && (forall x :: x in v1 && x.price != p ==> x in v0)
            && (ps.depth > 0 && q > 0 ==> v1 != [] && v1[0] == Level(p, q))
  {
    var v0, v1 := Top(isBid, l.levels, ps.depth), Top(isBid, Change(ps.c, isBid, l, p, q).levels, ps.depth);
    var j := MovedViews(ps.c, isBid, l, ps.depth, p, q);
    assert MovedTo(ps.depth, v0, v1, p, q, j);
  }

  // ---------------------------------------------------------------- what each delta says

  /** A delta of a change of `p` from `prev` to `q`, which turned the view `v0` into `v1` and left the
      quantities `m`: the flags are membership of its price before and after, the quantity is the
      new one, and the difference is that of the price, or for a secondary one that of the view. */
  ghost predicate Tells(d: LevelDelta, isBid: bool, kind: EventKind, v0: seq<Level>, v1: seq<Level>, m: map<int, int>,
                        p: int, prev: int, q: int)
  {
    && d.isBid == isBid
    && (d.wasInView <==> InView(v0, d.price)) && (d.inOfiView <==> InView(v1, d.price))
    && d.newQty == Get(m, d.price)
    && (d.price == p ==> d.deltaQty == q - prev && d.kind == kind)
    && (d.price != p ==> d.wasInView != d.inOfiView && d.deltaQty == (if d.inOfiView then d.newQty else -d.newQty)
                         && d.kind == if kind == Backfill then Backfill else Maintenance)
  }

  predicate Mentions(ds: seq<LevelDelta>, x: int) {
    exists i :: 0 <= i < |ds| && ds[i].price == x
  }

  lemma LastLevel(isBid: bool, m: map<int, int>, k: nat)
    requires k > 0 && |Top(isBid, m, k)| == k
    ensures var v := Top(isBid, m, k);
            v[k - 1..] == [v[k - 1]] && InView(v, v[k - 1].price) && v[k - 1].qty == Get(m, v[k - 1].price)
  {
    TopIsTop(isBid, m, k);
  }

  lemma EvictedLeaves(k: nat, isBid: bool, m: map<int, int>, p: int, q: int)
    requires 0 !in m && q >= 0
    requires Evicted(k, Top(isBid, m, k), Top(isBid, Put(m, p, q), k), p) != []
    ensures var v0, v1 := Top(isBid, m, k), Top(isBid, Put(m, p, q), k);
            && k > 0 && |v0| == k && Evicted(k, v0, v1, p) == [v0[k - 1]] && Replacement(k, v0, v1, p) == []
            && var e := v0[k - 1];
            e.price != p && InView(v0, e.price) && !InView(v1, e.price) && e.qty == Get(Put(m, p, q), e.price)
  {
    var v0 := Top(isBid, m, k);
    LastLevel(isBid, m, k);
    ChangesAreExplained(isBid, m, k, p, q);
    InViewOne(v0[k - 1], v0[k - 1].price);
  }

  lemma ReplacementEnters(k: nat, isBid: bool, m: map<int, int>, p: int, q: int)
    requires 0 !in m && q >= 0
    requires Replacement(k, Top(isBid, m, k), Top(isBid, Put(m, p, q), k), p) != []
    ensures var v0, v1 := Top(isBid, m, k), Top(isBid, Put(m, p, q), k);
            && k > 0 && |v1| == k && Replacement(k, v0, v1, p) == [v1[k - 1]] && Evicted(k, v0, v1, p) == []
            && var e := v1[k - 1];
            e.price != p && !InView(v0, e.price) && InView(v1, e.price) && e.qty == Get(Put(m, p, q), e.price)
  {
    var v1 := Top(isBid, Put(m, p, q), k);
    LastLevel(isBid, Put(m, p, q), k);
    ChangesAreExplained(isBid, m, k, p, q);
    InViewOne(v1[k - 1], v1[k - 1].price);
  }

  lemma OneSecondary(isBid: bool, kind: EventKind, e: Level)
    ensures Leaves(isBid, kind, [e]) == [LevelDelta(e.price, e.qty, -e.qty, isBid, true, false, kind)]
    ensures Enters(isBid, kind, [e]) == [LevelDelta(e.price, e.qty, e.qty, isBid, false, true, kind)]
  {
  }

  /** Every delta of a report tells the truth. */
  lemma ReportTells(k: nat, isBid: bool, kind: EventKind, m: map<int, int>, p: int, q: int)
    requires 0 !in m && q >= 0
    ensures var v0, v1 := Top(isBid, m, k), Top(isBid, Put(m, p, q), k);
            var ds := Report(k, isBid, kind, v0, v1, p, Get(m, p), q);
            && (forall i :: 0 <= i < |ds| ==> Tells(ds[i], isBid, kind, v0, v1, Put(m, p, q), p, Get(m, p), q))
            && (forall i :: 0 <= i < |ds| ==> (ds[i].price == p <==> i == 0)) && 1 <= |ds| <= 2
  {
    var v0, v1 := Top(isBid, m, k), Top(isBid, Put(m, p, q), k);
    var ds, head := Report(k, isBid, kind, v0, v1, p, Get(m, p), q),
                    LevelDelta(p, q, q - Get(m, p), isBid, InView(v0, p), InView(v1, p), kind);
    assert Tells(head, isBid, kind, v0, v1, Put(m, p, q), p, Get(m, p), q);
    if Evicted(k, v0, v1, p) != [] {
      EvictedLeaves(k, isBid, m, p, q);
      OneSecondary(isBid, Secondary(kind), v0[k - 1]);
      assert |ds| == 2 && ds[0] == head;
    } else if Replacement(k, v0, v1, p) != [] {
      ReplacementEnters(k, isBid, m, p, q);
      OneSecondary(isBid, Secondary(kind), v1[k - 1]);
      assert |ds| == 2 && ds[0] == head;
    } else {
      assert ds == [head];
    }
  }

  /** A report leaves out nothing that entered or left. */
  lemma ReportMentions(k: nat, isBid: bool, kind: EventKind, m: map<int, int>, p: int, q: int, x: int)
    requires 0 !in m && q >= 0
    ensures var v0, v1 := Top(isBid, m, k), Top(isBid, Put(m, p, q), k);
            !Mentions(Report(k, isBid, kind, v0, v1, p, Get(m, p), q), x) ==> (InView(v0, x) <==> InView(v1, x))
  {
    var v0, v1 := Top(isBid, m, k), Top(isBid, Put(m, p, q), k);
    var ds := Report(k, isBid, kind, v0, v1, p, Get(m, p), q);
    var ev, rp := Evicted(k, v0, v1, p), Replacement(k, v0, v1, p);
    ChangesAreExplained(isBid, m, k, p, q);
    assert ds[0].price == p;
    if ev != [] {
      EvictedLeaves(k, isBid, m, p, q);
      assert ds[1].price == ev[0].price;
    } else if rp != [] {
      ReplacementEnters(k, isBid, m, p, q);
      assert ds[1].price == rp[0].price;
    }
  }

  lemma KeptTells(ps: Params, isBid: bool, kind: EventKind, l: Ladder, p: int, q: int)
    requires ps.c.Valid() && l.Valid(ps.c) && ps.c.PriceOk(p) && 0 <= q <= MAX
    requires !Recentres(ps.c, l, p) && q != Get(l.levels, p)
    ensures var m, v0 := Change(ps.c, isBid, l, p, q).levels, Top(isBid, l.levels, ps.depth);
            var v1, ds := Top(isBid, m, ps.depth), Deltas(ps, isBid, kind, l, p, q);
            && (forall i :: 0 <= i < |ds| ==> Tells(ds[i], isBid, kind, v0, v1, m, p, Get(l.levels, p), q))
            && (forall i :: 0 <= i < |ds| ==> (ds[i].price == p <==> i == 0)) && 1 <= |ds| <= 2
            && (forall x :: !Mentions(ds, x) ==> (InView(v0, x) <==> InView(v1, x)))
  {
    assert Change(ps.c, isBid, l, p, q).levels == Put(l.levels, p, q);
    KeptDeltas(ps, isBid, kind, l, p, q);
    ReportTells(ps.depth, isBid, kind, l.levels, p, q);
    forall x
      ensures var v0, v1 := Top(isBid, l.levels, ps.depth), Top(isBid, Put(l.levels, p, q), ps.depth);
              !Mentions(Deltas(ps, isBid, kind, l, p, q), x) ==> (InView(v0, x) <==> InView(v1, x))
    {
      ReportMentions(ps.depth, isBid, kind, l.levels, p, q, x);
    }
  }

  lemma MovedTells(ps: Params, isBid: bool, kind: EventKind, l: Ladder, p: int, q: int)
    requires ps.c.Valid() && l.Valid(ps.c) && ps.c.PriceOk(p) && 0 < q <= MAX && Moves(ps.c, isBid, l, p)
    ensures var m := Change(ps.c, isBid, l, p, q).levels;
            var v, ds := Top(isBid, m, ps.depth), Deltas(ps, isBid, kind, l, p, q);
            |ds| == 1 && ds[0].price == p && Tells(ds[0], isBid, kind, v, v, m, p, Get(l.levels, p), q)
  {
    WindowPassed(ps.c, isBid, l, p);
  }

  /** The deltas of any change, read one by one: the level's own comes first, and besides at most one
      level that left or entered the view is reported. Every delta tells the truth, and what no delta
      mentions is on view after exactly if it was before. `v0` is the view as it was, rebuilt first
      if the window moved. */
  lemma DeltasTell(ps: Params, isBid: bool, kind: EventKind, l: Ladder, p: int, q: int)
    requires ps.c.Valid() && l.Valid(ps.c) && ps.c.PriceOk(p) && 0 <= q <= MAX
    ensures var m := Change(ps.c, isBid, l, p, q).levels;
            var v0 := Top(isBid, if Moves(ps.c, isBid, l, p) then m else l.levels, ps.depth);
            var v1, ds := Top(isBid, m, ps.depth), Deltas(ps, isBid, kind, l, p, q);
            && (forall i :: 0 <= i < |ds| ==> Tells(ds[i], isBid, kind, v0, v1, m, p, Get(l.levels, p), q))
            && (forall i :: 0 <= i < |ds| ==> (ds[i].price == p <==> i == 0)) && |ds| <= 2
            && (ds == [] <==> IsDropped(ps.c, isBid, l, p) || q == Get(l.levels, p))
            && (forall x :: !Mentions(ds, x) ==> (InView(v0, x) <==> InView(v1, x)))
  {
    var m := Change(ps.c, isBid, l, p, q).levels;
    SetValid(ps.c, l, p, q);
    if IsDropped(ps.c, isBid, l, p) || q == Get(l.levels, p) {
      assert !Moves(ps.c, isBid, l, p) ==> m == l.levels;
    } else if Moves(ps.c, isBid, l, p) {
      MovedTells(ps, isBid, kind, l, p, q);
    } else {
      KeptTells(ps, isBid, kind, l, p, q);
    }
  }

  // ---------------------------------------------------------------- batches

  predicate EditsOk(c: Config, es: seq<Edit>)
    requires c.tick > 0
  {
    forall i :: 0 <= i < |es| ==> EditOk(c, es[i])
  }

  /** The signed quantity that a batch leaves behind. */
  ghost function BatchDrift(ps: Params, b: Book, es: seq<Edit>): int {
    if es == [] then 0
    else
      var n := |es| - 1;
      var e, a := es[n], ApplyAll(ps.c, b, es[..n]);
      BatchDrift(ps, b, es[..n]) + Signed(e.isBid, Drift(ps, e.isBid, a.Side(e.isBid), e.price, e.qty))
  }

  /** Some edit of the batch moves a window. */
  ghost predicate BatchMoves(c: Config, b: Book, es: seq<Edit>) {
    es != [] &&
    var n := |es| - 1;
    var e, a := es[n], ApplyAll(c, b, es[..n]);
    BatchMoves(c, b, es[..n]) || Moves(c, e.isBid, a.Side(e.isBid), e.price)
  }

  lemma Associative<T>(a: seq<T>, b: seq<T>, c: seq<T>)
    ensures (a + b) + c == a + (b + c)
  {
  }

  predicate OnSide(ds: seq<LevelDelta>, isBid: bool) {
    forall i :: 0 <= i < |ds| ==> ds[i].isBid == isBid
  }

  lemma OnSideAppend(a: seq<LevelDelta>, b: seq<LevelDelta>, isBid: bool)
    requires OnSide(a, isBid) && OnSide(b, isBid)
    ensures OnSide(a + b, isBid)
  {
  }

  lemma EditDeltasOnSide(ps: Params, kind: EventKind, b: Book, e: Edit)
    ensures OnSide(EditDeltas(ps, kind, b, e), e.isBid)
  {
  }

  lemma {:induction false} AllDeltasConcat(ps: Params, kind: EventKind, b: Book, es: seq<Edit>, fs: seq<Edit>)
    ensures ApplyAll(ps.c, b, es + fs) == ApplyAll(ps.c, ApplyAll(ps.c, b, es), fs)
    ensures AllDeltas(ps, kind, b, es + fs) == AllDeltas(ps, kind, b, es) + AllDeltas(ps, kind, ApplyAll(ps.c, b, es), fs)
  {
    if fs == [] {
      assert es + fs == es;
    } else {
      var n := |fs| - 1;
      assert (es + fs)[..|es + fs| - 1] == es + fs[..n];
      AllDeltasConcat(ps, kind, b, es, fs[..n]);
      var a := ApplyAll(ps.c, b, es);
      Associative(AllDeltas(ps, kind, b, es), AllDeltas(ps, kind, a, fs[..n]),
                  EditDeltas(ps, kind, ApplyAll(ps.c, a, fs[..n]), fs[n]));
    }
  }

  lemma {:induction false} OneSideDeltas(ps: Params, kind: EventKind, b: Book, isBid: bool, v: seq<Level>)
    ensures OnSide(AllDeltas(ps, kind, b, Edits(isBid, v)), isBid)
  {
    if v == [] {
    } else {
      var n := |v| - 1;
      assert Edits(isBid, v)[..n] == Edits(isBid, v[..n]);
      OneSideDeltas(ps, kind, b, isBid, v[..n]);
      var a, e := ApplyAll(ps.c, b, Edits(isBid, v[..n])), Edits(isBid, v)[n];
      EditDeltasOnSide(ps, kind, a, e);
      OnSideAppend(AllDeltas(ps, kind, b, Edits(isBid, v[..n])), EditDeltas(ps, kind, a, e), isBid);
    }
  }

  /** The deltas of two sides applied one after the other: all of the first, then all of the other. */
  lemma SidesInOrder(ps: Params, kind: EventKind, b: Book, first: bool, v: seq<Level>, w: seq<Level>) returns (n: nat)
    ensures var ds := AllDeltas(ps, kind, b, Edits(first, v) + Edits(!first, w));
            n <= |ds| && forall i :: 0 <= i < |ds| ==> (ds[i].isBid == first <==> i < n)
  {
    AllDeltasConcat(ps, kind, b, Edits(first, v), Edits(!first, w));
    OneSideDeltas(ps, kind, b, first, v);
    OneSideDeltas(ps, kind, ApplyAll(ps.c, b, Edits(first, v)), !first, w);
    n := |AllDeltas(ps, kind, b, Edits(first, v))|;
  }

  /** An update reports all asks before all bids, a plain delta message all bids before all asks. */
  lemma ReportingOrder(ps: Params, kind: EventKind, b: Book, d: Diff) returns (asks: nat, bids: nat)
    ensures var ds := UpdateDeltas(ps, kind, b, d);
            asks <= |ds| && forall i :: 0 <= i < |ds| ==> (ds[i].isBid <==> i >= asks)
    ensures var ds := AllDeltas(ps, kind, b, Edits(true, d.bids) + Edits(false, d.asks));
            bids <= |ds| && forall i :: 0 <= i < |ds| ==> (ds[i].isBid <==> i < bids)
  {
    asks := SidesInOrder(ps, kind, b, false, d.asks, d.bids);
    bids := SidesInOrder(ps, kind, b, true, d.bids, d.asks);
    if IsStale(b, d) || IsGap(b, d) {
      asks := 0;
    }
  }

  lemma EditCounts(ps: Params, kind: EventKind, a: Book, e: Edit)
    requires ps.c.Valid() && a.Valid(ps) && EditOk(ps.c, e) && kind != Backfill
    ensures CountedSum(EditDeltas(ps, kind, a, e)) ==
            Balance(ps, Apply(ps.c, a, e)) - Balance(ps, a)
            + Signed(e.isBid, Drift(ps, e.isBid, a.Side(e.isBid), e.price, e.qty))
  {
    ChangeCounts(ps, e.isBid, kind, a.Side(e.isBid), e.price, e.qty);
    var a' := Apply(ps.c, a, e);
    assert a'.Side(!e.isBid) == a.Side(!e.isBid);
  }

  /** The deltas of a whole batch, evictions and refills included, add up to the change of the
      balance on view plus what moving windows left behind. */
  lemma {:induction false} BatchCounts(ps: Params, kind: EventKind, b: Book, es: seq<Edit>)
    requires ps.c.Valid() && b.Valid(ps) && EditsOk(ps.c, es) && kind != Backfill
    ensures CountedSum(AllDeltas(ps, kind, b, es)) ==
            Balance(ps, ApplyAll(ps.c, b, es)) - Balance(ps, b) + BatchDrift(ps, b, es)
  {
    if es == [] {
    } else {
      var n := |es| - 1;
      var e, a := es[n], ApplyAll(ps.c, b, es[..n]);
      BatchCounts(ps, kind, b, es[..n]);
      ApplyAllValid(ps, b, es[..n]);
      assert EditOk(ps.c, e);
      EditCounts(ps, kind, a, e);
      CountedSumAppend(AllDeltas(ps, kind, b, es[..n]), EditDeltas(ps, kind, a, e));
    }
  }

  lemma {:induction false} NoMoveNoDrift(ps: Params, b: Book, es: seq<Edit>)
    requires !BatchMoves(ps.c, b, es)
    ensures BatchDrift(ps, b, es) == 0
  {
    if es == [] {
    } else {
      NoMoveNoDrift(ps, b, es[..|es| - 1]);
    }
  }

  lemma ChangeIsBackfill(ps: Params, isBid: bool, l: Ladder, p: int, q: int)
    ensures var ds := Deltas(ps, isBid, Backfill, l, p, q); forall i :: 0 <= i < |ds| ==> ds[i].kind == Backfill
  {
  }

  lemma {:induction false} AllBackfill(ds: seq<LevelDelta>)
    requires forall i :: 0 <= i < |ds| ==> ds[i].kind == Backfill
    ensures CountedSum(ds) == 0
  {
    if ds == [] {
    } else {
      AllBackfill(ds[..|ds| - 1]);
    }
  }

  /** Backfill is never counted. */
  lemma {:induction false} BackfillCountsNothing(ps: Params, b: Book, es: seq<Edit>)
    ensures CountedSum(AllDeltas(ps, Backfill, b, es)) == 0
  {
    if es == [] {
    } else {
      var n := |es| - 1;
      BackfillCountsNothing(ps, b, es[..n]);
      var e, a := es[n], ApplyAll(ps.c, b, es[..n]);
      CountedSumAppend(AllDeltas(ps, Backfill, b, es[..n]), EditDeltas(ps, Backfill, a, e));
      ChangeIsBackfill(ps, e.isBid, a.Side(e.isBid), e.price, e.qty);
      AllBackfill(EditDeltas(ps, Backfill, a, e));
    }
  }
}
